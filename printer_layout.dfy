/**
 * The line structure of what the printing rules produce: block-bodied
 * declarations (struct, union, exception, enum, service), the one-line
 * definitions, constant lists and maps, and the document as a whole.
 */
module PrinterLayout {
  import opened Wrappers
  import opened Ast
  import opened Docs
  import opened Comments
  import opened Printer
  import opened PrinterText

  // ----- generic layout facts -----

  /** `join(sep, [x])` is `x` alone. */
  lemma JoinSingle(sep: Doc, x: Doc)
    ensures Segments(Join(sep, [x])) == Segments(x)
  {
    SegmentsOne(x);
  }

  /** A hard line break followed by a document: an empty line, then the document's lines. */
  lemma BreakThen(x: Doc)
    ensures Segments(Concat([Hardline, x])) == [""] + Segments(x)
  {
    SegmentsTwo(Hardline, x);
    GlueAfterBreak(Segments(x));
  }

  /** Leading comments: each on its own line(s), then a line break before what follows. */
  lemma PreRun(pre: seq<Doc>)
    ensures Segments(PreCommentsDoc(pre)) == Flatten(SegmentsEach(pre)) + [""]
  {
    if |pre| > 0 {
      SegmentsTwo(Join(Hardline, pre), Hardline);
      JoinHardlinesLines(pre);
      GlueBeforeBreak(Segments(Join(Hardline, pre)));
    } else {
      assert SegmentsEach(pre) == [];
    }
  }

  /** An indented run of members or inner comments: a line break, then each document on new lines. */
  lemma IndentedRun(ds: seq<Doc>)
    ensures Segments(if |ds| > 0 then Indent(Concat([Hardline, Join(Hardline, ds)])) else Text(""))
            == [""] + Flatten(SegmentsEach(ds))
  {
    if |ds| > 0 {
      BreakThen(Join(Hardline, ds));
      JoinHardlinesLines(ds);
    } else {
      assert SegmentsEach(ds) == [];
    }
  }

  /** Documents that each read as one line put those lines one after the other. */
  lemma {:induction false} FlattenOneLines(ds: seq<Doc>, ss: seq<string>)
    requires ReadsAs(ds, ss)
    ensures Flatten(SegmentsEach(ds)) == ss
  {
    if ds != [] {
      assert SegmentsEach(ds)[1..] == SegmentsEach(ds[1..]);
      assert ReadsAs(ds[1..], ss[1..]);
      FlattenOneLines(ds[1..], ss[1..]);
      assert ss == [ss[0]] + ss[1..];
    }
  }

  lemma SegmentsCons(x: Doc, ds: seq<Doc>)
    ensures SegmentsOfSeq([x] + ds) == Glue(Segments(x), SegmentsOfSeq(ds))
  {
    assert ([x] + ds)[1..] == ds;
  }

  lemma SegmentsFive(a: Doc, b: Doc, c: Doc, d: Doc, e: Doc)
    ensures SegmentsOfSeq([a, b, c, d, e]) == Glue(Segments(a), Glue(Segments(b), Glue(Segments(c), Glue(Segments(d), Segments(e)))))
  {
    assert [a, b, c, d, e] == [a] + [b, c, d, e];
    assert [b, c, d, e] == [b] + [c, d, e];
    assert [c, d, e] == [c] + [d, e];
    SegmentsCons(a, [b, c, d, e]);
    SegmentsCons(b, [c, d, e]);
    SegmentsCons(c, [d, e]);
    SegmentsTwo(d, e);
  }

  /** The opening line, then the members, the inner comments and the closing lines. */
  lemma GlueBodyClosed(st: string, ms: seq<string>, ins: seq<string>, en: seq<string>)
    requires |en| >= 1
    ensures Glue([st], Glue([""] + ms, Glue([""] + ins, Glue(["", ""], en)))) == [st] + ms + ins + en
  {
    var e1 := Glue(["", ""], en);
    GlueAfterBreak(en);
    var e2 := Glue([""] + ins, e1);
    GlueStep(ins, en);
    var e3 := Glue([""] + ms, e2);
    GlueStep(ms, ins + en);
    GlueBreak([st], ms + (ins + en));
    Assoc4([st], ms, ins, en);
  }

  /** Sequence concatenation regrouped; a lemma of its own so the solver proves it outside `GlueBodyClosed`. */
  lemma Assoc4(a: seq<string>, b: seq<string>, c: seq<string>, d: seq<string>)
    ensures a + (b + (c + d)) == a + b + c + d
  {
  }

  lemma GlueStep(x: seq<string>, r: seq<string>)
    ensures Glue([""] + x, [""] + r) == [""] + (x + r)
  {
    GlueBreak([""] + x, r);
    assert [""] + x + r == [""] + (x + r);
  }

  /** An empty body without annotations: the closing continues the opening line. */
  lemma GlueBodyOpen(st: string, en: seq<string>)
    requires |en| >= 1
    ensures Glue([st], Glue([""], Glue([""], Glue([""], en)))) == Glue([st], en)
  {
    GlueUnit(en);
  }

  /** The part of a block after its leading comments, from the opening line to the end. */
  lemma BlockBody(start: Doc, members: seq<Doc>, innerPost: seq<Doc>, annotated: bool, end: Doc, st: string)
    requires Segments(start) == [st]
    ensures
      var close := |innerPost| > 0 || |members| > 0 || annotated;
      SegmentsOfSeq([start,
                     if |members| > 0 then Indent(Concat([Hardline, Join(Hardline, members)])) else Text(""),
                     if |innerPost| > 0 then Indent(Concat([Hardline, Join(Hardline, innerPost)])) else Text(""),
                     if close then Hardline else Text(""),
                     end])
      == if close then [st] + Flatten(SegmentsEach(members)) + Flatten(SegmentsEach(innerPost)) + Segments(end)
         else Glue([st], Segments(end))
  {
    var m := if |members| > 0 then Indent(Concat([Hardline, Join(Hardline, members)])) else Text("");
    var i := if |innerPost| > 0 then Indent(Concat([Hardline, Join(Hardline, innerPost)])) else Text("");
    var close := |innerPost| > 0 || |members| > 0 || annotated;
    var b := if close then Hardline else Text("");
    SegmentsFive(start, m, i, b, end);
    IndentedRun(members);
    IndentedRun(innerPost);
    var ms, ins := Flatten(SegmentsEach(members)), Flatten(SegmentsEach(innerPost));
    if close {
      GlueBodyClosed(st, ms, ins, Segments(end));
    } else {
      assert SegmentsEach(members) == [] && SegmentsEach(innerPost) == [];
      assert [""] + ms == [""] && [""] + ins == [""];
      GlueBodyOpen(st, Segments(end));
    }
  }

  /** The part of a block before its opening line: the break for a previous sibling and the leading comments. */
  lemma BlockFront(hasPrevious: bool, pre: seq<Doc>)
    ensures SegmentsOfSeq([if hasPrevious then Hardline else Text(""), PreCommentsDoc(pre)])
            == (if hasPrevious then [""] else []) + Flatten(SegmentsEach(pre)) + [""]
  {
    var h := if hasPrevious then Hardline else Text("");
    var p := PreCommentsDoc(pre);
    SegmentsTwo(h, p);
    PreRun(pre);
    if hasPrevious {
      GlueAfterBreak(Segments(p));
    } else {
      GlueUnit(Segments(p));
    }
  }

  /**
   * The lines of a block-bodied declaration whose opening reads as one line
   * `st`: an empty line first when it has a previous sibling, then the
   * leading comments, then either the opening line, the members, the inner
   * comments and the closing on a line of its own, or, when the body is
   * empty and there are no annotations, the closing on the opening line.
   */
  lemma BlockLines(hasPrevious: bool, pre: seq<Doc>, start: Doc, members: seq<Doc>,
                   innerPost: seq<Doc>, annotated: bool, end: Doc, st: string)
    requires Segments(start) == [st]
    ensures Segments(BlockDecl(hasPrevious, pre, start, members, innerPost, annotated, end))
            == (if hasPrevious then [""] else []) + Flatten(SegmentsEach(pre))
               + (if |innerPost| > 0 || |members| > 0 || annotated
                  then [st] + Flatten(SegmentsEach(members)) + Flatten(SegmentsEach(innerPost)) + Segments(end)
                  else Glue([st], Segments(end)))
  {
    var parts := BlockDecl(hasPrevious, pre, start, members, innerPost, annotated, end).parts;
    var front := (if hasPrevious then [""] else []) + Flatten(SegmentsEach(pre));
    var close := |innerPost| > 0 || |members| > 0 || annotated;
    assert parts[..2] == [if hasPrevious then Hardline else Text(""), PreCommentsDoc(pre)];
    assert parts[2..] == [start,
                          if |members| > 0 then Indent(Concat([Hardline, Join(Hardline, members)])) else Text(""),
                          if |innerPost| > 0 then Indent(Concat([Hardline, Join(Hardline, innerPost)])) else Text(""),
                          if close then Hardline else Text(""),
                          end];
    assert parts == parts[..2] + parts[2..];
    SegmentsOfAppend(parts[..2], parts[2..]);
    BlockFront(hasPrevious, pre);
    BlockBody(start, members, innerPost, annotated, end, st);
    GlueAfterLine(front, SegmentsOfSeq(parts[2..]));
  }

  /** `BlockLines` for a closing that reads as one line `en`. */
  lemma BlockLinesOneLineEnd(hasPrevious: bool, pre: seq<Doc>, start: Doc, members: seq<Doc>,
                             innerPost: seq<Doc>, annotated: bool, end: Doc, st: string, en: string)
    requires Segments(start) == [st] && Segments(end) == [en]
    ensures Segments(BlockDecl(hasPrevious, pre, start, members, innerPost, annotated, end))
            == (if hasPrevious then [""] else []) + Flatten(SegmentsEach(pre))
               + (if |innerPost| > 0 || |members| > 0 || annotated
                  then [st] + Flatten(SegmentsEach(members)) + Flatten(SegmentsEach(innerPost)) + [en]
                  else [st + en])
  {
    BlockLines(hasPrevious, pre, start, members, innerPost, annotated, end, st);
    assert Glue([st], [en]) == [st + en];
  }

  /** A previous sibling adds exactly one empty line before a block-bodied declaration. */
  lemma BlockPrevious(pre: seq<Doc>, start: Doc, members: seq<Doc>, innerPost: seq<Doc>, annotated: bool, end: Doc)
    ensures Segments(BlockDecl(true, pre, start, members, innerPost, annotated, end))
            == [""] + Segments(BlockDecl(false, pre, start, members, innerPost, annotated, end))
  {
    var t := BlockDecl(true, pre, start, members, innerPost, annotated, end).parts;
    var f := BlockDecl(false, pre, start, members, innerPost, annotated, end).parts;
    assert t[1..] == f[1..];
    assert Segments(BlockDecl(true, pre, start, members, innerPost, annotated, end)) == Glue(Segments(Hardline), SegmentsOfSeq(t[1..]));
    assert Segments(BlockDecl(false, pre, start, members, innerPost, annotated, end)) == Glue(Segments(Text("")), SegmentsOfSeq(f[1..]));
    GlueAfterBreak(SegmentsOfSeq(t[1..]));
    GlueUnit(SegmentsOfSeq(f[1..]));
  }

  // ----- comments in a block -----

  /** The lines of the comment at index `i`: an empty line when a blank line is kept before it, then its stored lines. */
  function CommentLinesAt(cs: seq<Comment>, i: nat): seq<string>
    requires i < |cs|
  {
    (if ExtraBreak(cs[i], if i == 0 then None else Some(cs[i - 1])) then [""] else []) + StoredLines(cs[i])
  }

  /** The comments of one position read, one after the other in source order, as their own lines. */
  lemma BucketLines(cs: seq<Comment>, pos: Position)
    ensures
      var ix := Bucket(cs, pos, |cs|);
      SegmentsEach(BucketDocs(cs, pos, |cs|)) == seq(|ix|, k requires 0 <= k < |ix| => CommentLinesAt(cs, ix[k]))
  {
    var ix := Bucket(cs, pos, |cs|);
    forall k | 0 <= k < |ix|
      ensures Segments(BucketDocs(cs, pos, |cs|)[k]) == CommentLinesAt(cs, ix[k])
    {
      CommentSegments(cs[ix[k]], if ix[k] == 0 then None else Some(cs[ix[k] - 1]));
    }
  }

  // ----- opening and closing lines -----

  lemma Cat5(a: string, b: string, c: string, d: string, e: string)
    ensures Cat([a, b, c, d, e]) == a + b + c + d + e
  {
    assert [a, b, c, d, e] == [a] + [b, c, d, e];
    CatCons(a, [b, c, d, e]);
    Cat4(b, c, d, e);
  }

  /** `keyword name {` as printed for a struct or an enum. */
  lemma OpeningLine(keyword: string, name: string)
    ensures Segments(Concat([Text(keyword), Text(" "), Text(name), Text(" "), Text("{")])) == [keyword + " " + name + " {"]
  {
    var ds := [Text(keyword), Text(" "), Text(name), Text(" "), Text("{")];
    var ss := [keyword, " ", name, " ", "{"];
    assert ReadsAs(ds, ss);
    OneLineParts(ds, ss);
    Cat5(keyword, " ", name, " ", "{");
    assert keyword + " " + name + " " + "{" == keyword + " " + name + " {";
  }

  lemma InterleaveCons(sep: Doc, x: Doc, xs: seq<Doc>)
    requires |xs| >= 1
    ensures Interleave(sep, [x] + xs) == [x, sep] + Interleave(sep, xs)
  {
    assert ([x] + xs)[1..] == xs;
  }

  /** The text of the closing `}` and the annotations, as one line. */
  lemma ClosingText(annotations: Option<seq<Annotation>>)
    ensures ReadsAs(Interleave(Text(" "), [Text("}")] + AnnotationsDoc(annotations)),
                    if Annotated(annotations) then ["}", " ", AnnotationsText(annotations.value)] else ["}"])
    ensures Cat(if Annotated(annotations) then ["}", " ", AnnotationsText(annotations.value)] else ["}"])
            == "}" + AnnotationSuffix(annotations)
  {
    if Annotated(annotations) {
      var a := AnnotationsDoc(annotations)[0];
      assert [Text("}")] + AnnotationsDoc(annotations) == [Text("}"), a];
      AnnotationsOneLine(annotations);
      SpacedPair(Text("}"), "}", a, AnnotationsText(annotations.value));
    } else {
      assert [Text("}")] + AnnotationsDoc(annotations) == [Text("}")];
      assert Cat(["}"]) == "}" + Cat([]);
    }
  }

  /** `join(space, [x, y])` for one-line `x` and `y` reads as their texts with a space between. */
  lemma SpacedPair(x: Doc, xs: string, y: Doc, ys: string)
    requires Segments(x) == [xs] && Segments(y) == [ys]
    ensures ReadsAs(Interleave(Text(" "), [x, y]), [xs, " ", ys])
    ensures Cat([xs, " ", ys]) == xs + " " + ys
  {
    assert [x, y] == [x] + [y];
    InterleaveCons(Text(" "), x, [y]);
    Cat3(xs, " ", ys);
  }

  /** An enum closes with `}` and its annotations. */
  lemma EnumClosing(annotations: Option<seq<Annotation>>)
    ensures Segments(Join(Text(" "), [Text("}")] + AnnotationsDoc(annotations))) == ["}" + AnnotationSuffix(annotations)]
  {
    ClosingText(annotations);
    OneLineParts(Interleave(Text(" "), [Text("}")] + AnnotationsDoc(annotations)),
                 if Annotated(annotations) then ["}", " ", AnnotationsText(annotations.value)] else ["}"]);
  }

  /**
   * A struct or service closes with `}`, its annotations and a space, and
   * its post comments follow on that line.
   */
  lemma PostClosing(annotations: Option<seq<Annotation>>, post: seq<Doc>)
    ensures Segments(Join(Text(" "), [Text("}")] + AnnotationsDoc(annotations) + [Concat(post)]))
            == Glue(["}" + AnnotationSuffix(annotations) + " "], SegmentsOfSeq(post))
  {
    var head := [Text("}")] + AnnotationsDoc(annotations);
    var texts := if Annotated(annotations) then ["}", " ", AnnotationsText(annotations.value)] else ["}"];
    InterleaveAppendOne(Text(" "), head, Concat(post));
    ClosingText(annotations);
    SpacedLast(Interleave(Text(" "), head), texts, "}" + AnnotationSuffix(annotations), Concat(post));
  }

  /** One-line parts reading as `line`, a space and a last doc `y`: `y` continues `line` after the space. */
  lemma SpacedLast(xs: seq<Doc>, texts: seq<string>, line: string, y: Doc)
    requires ReadsAs(xs, texts) && Cat(texts) == line
    ensures SegmentsOfSeq(xs + [Text(" "), y]) == Glue([line + " "], Segments(y))
  {
    var ds := xs + [Text(" ")];
    ReadsAsAppend(xs, texts, [Text(" ")], [" "]);
    OneLineParts(ds, texts + [" "]);
    CatAppend(texts, [" "]);
    assert Cat([" "]) == " " + Cat([]);
    assert " " + "" == " ";
    assert xs + [Text(" "), y] == ds + [y];
    SegmentsSnoc(ds, y);
  }

  /** `join(sep, xs + [y])` puts one more separator and then `y` after the join of `xs`. */
  lemma {:induction false} InterleaveAppendOne(sep: Doc, xs: seq<Doc>, y: Doc)
    requires |xs| >= 1
    ensures Interleave(sep, xs + [y]) == Interleave(sep, xs) + [sep, y]
  {
    if |xs| == 1 {
      assert xs + [y] == [xs[0]] + [y];
      InterleaveCons(sep, xs[0], [y]);
    } else {
      assert xs + [y] == [xs[0]] + (xs[1..] + [y]);
      InterleaveCons(sep, xs[0], xs[1..] + [y]);
      InterleaveAppendOne(sep, xs[1..], y);
      assert xs == [xs[0]] + xs[1..];
      InterleaveCons(sep, xs[0], xs[1..]);
    }
  }

  // ----- lines with leading and trailing comments -----

  lemma {:induction false} FlattenSnoc(ls: seq<seq<string>>, l: seq<string>)
    ensures Flatten(ls + [l]) == Flatten(ls) + l
  {
    if ls == [] {
      assert [] + [l] == [l];
      assert [l][1..] == [];
    } else {
      assert (ls + [l])[1..] == ls[1..] + [l];
      FlattenSnoc(ls[1..], l);
    }
  }

  /** `join(hardline, [...preComments, x])`: the leading comments' lines, then the lines of `x`. */
  lemma CommentedLines(pre: seq<Doc>, x: Doc)
    ensures Segments(Join(Hardline, pre + [x])) == Flatten(SegmentsEach(pre)) + Segments(x)
  {
    JoinHardlinesLines(pre + [x]);
    assert SegmentsEach(pre + [x]) == SegmentsEach(pre) + [Segments(x)];
    FlattenSnoc(SegmentsEach(pre), Segments(x));
  }

  /** Trailing comments: nothing, or a space and the comments, read in place. */
  lemma TrailingLines(post: seq<Doc>)
    ensures Segments(TrailingCommentsDoc(post)) == if |post| > 0 then Glue([" "], SegmentsOfSeq(post)) else [""]
  {
    if |post| > 0 {
      SegmentsTwo(Text(" "), Concat(post));
    }
  }

  // ----- struct, union and exception -----

  /**
   * The lines of a struct whose fields carry no comments: the opening
   * `struct name {`, one line per field, the inner comments and the closing
   * `}` with its annotations and post comments, or all of it on the opening
   * line when there are no fields, inner comments or annotations.
   */
  lemma StructLines(kw: KeywordNames, d: Definition, hasPrevious: bool)
    requires d.Struct?
    requires forall i :: 0 <= i < |d.fields| ==> SimpleField(d.fields[i])
    ensures
      var docs := CommentsDocs(d.comments);
      var st := "struct " + d.name + " {";
      var en := Glue(["}" + AnnotationSuffix(d.annotations) + " "], SegmentsOfSeq(docs.2));
      Segments(PrintStruct(kw, d, hasPrevious))
      == (if hasPrevious then [""] else []) + Flatten(SegmentsEach(docs.0))
         + (if |docs.1| > 0 || |d.fields| > 0 || Annotated(d.annotations)
            then [st] + FieldTexts(kw, d.fields) + Flatten(SegmentsEach(docs.1)) + en
            else Glue([st], en))
  {
    var docs := CommentsDocs(d.comments);
    var start := Concat([Text("struct"), Text(" "), Text(d.name), Text(" "), Text("{")]);
    var end := Join(Text(" "), [Text("}")] + AnnotationsDoc(d.annotations) + [Concat(docs.2)]);
    OpeningLine("struct", d.name);
    assert "struct" + " " == "struct ";
    BlockLines(hasPrevious, docs.0, start, FieldDocs(kw, d.fields), docs.1, Annotated(d.annotations), end, "struct " + d.name + " {");
    PostClosing(d.annotations, docs.2);
    forall i | 0 <= i < |d.fields| ensures Segments(FieldDocs(kw, d.fields)[i]) == [FieldTexts(kw, d.fields)[i]] {
      FieldOneLine(kw, d.fields[i]);
    }
    FlattenOneLines(FieldDocs(kw, d.fields), FieldTexts(kw, d.fields));
  }

  /** Unions and exceptions print exactly as a struct with the same parts. */
  lemma UnionPrintsStruct(kw: KeywordNames, d: Definition, hasPrevious: bool)
    requires d.Struct?
    ensures PrintDefinition(kw, d, hasPrevious) == PrintDefinition(kw, d.(kind := StructDefinition), hasPrevious)
  {
  }

  // ----- enum -----

  function EnumMemberText(m: EnumMember): string {
    m.name + (if m.initializer.Some? then " = " + m.initializer.value else "") + AnnotationSuffix(m.annotations)
  }

  /** The lines of an enum member: its leading comments, then `name = value (annotations)` and its trailing comments. */
  function MemberLines(m: EnumMember): seq<string> {
    var docs := CommentsDocs(m.comments);
    Flatten(SegmentsEach(docs.0)) + Glue([EnumMemberText(m)], Segments(TrailingCommentsDoc(docs.2)))
  }

  lemma JoinStrCons(sep: string, a: string, rest: seq<string>)
    requires |rest| >= 1
    ensures JoinStr(sep, [a] + rest) == a + sep + JoinStr(sep, rest)
  {
    assert ([a] + rest)[1..] == rest;
  }

  /** The member's name, value and annotations joined by spaces read as `name = value (annotations)`. */
  lemma MemberText(m: EnumMember)
    ensures
      var ss := [m.name] + (if m.initializer.Some? then ["=", m.initializer.value] else [])
                + (if Annotated(m.annotations) then [AnnotationsText(m.annotations.value)] else []);
      JoinStr(" ", ss) == EnumMemberText(m)
  {
    var init := if m.initializer.Some? then ["=", m.initializer.value] else [];
    var ann := if Annotated(m.annotations) then [AnnotationsText(m.annotations.value)] else [];
    if m.initializer.Some? {
      var v := m.initializer.value;
      if Annotated(m.annotations) {
        var at := AnnotationsText(m.annotations.value);
        assert [m.name] + init + ann == [m.name] + [ "=", v, at];
        JoinStrCons(" ", m.name, ["=", v, at]);
        JoinStrCons(" ", "=", [v, at]);
        JoinStrCons(" ", v, [at]);
        assert m.name + " " + ("=" + " " + (v + " " + at)) == m.name + (" = " + v) + (" " + at);
      } else {
        assert [m.name] + init + ann == [m.name] + ["=", v];
        JoinStrCons(" ", m.name, ["=", v]);
        JoinStrCons(" ", "=", [v]);
        assert m.name + " " + ("=" + " " + v) == m.name + (" = " + v) + "";
      }
    } else {
      if Annotated(m.annotations) {
        var at := AnnotationsText(m.annotations.value);
        assert [m.name] + init + ann == [m.name] + [at];
        JoinStrCons(" ", m.name, [at]);
        assert m.name + " " + at == m.name + "" + (" " + at);
      } else {
        assert [m.name] + init + ann == [m.name];
        assert m.name == m.name + "" + "";
      }
    }
  }

  lemma EnumMemberLines(m: EnumMember)
    ensures Segments(PrintEnumMember(m)) == MemberLines(m)
  {
    var docs := CommentsDocs(m.comments);
    var ds := [Text(m.name)] + (if m.initializer.Some? then [Text("="), Text(m.initializer.value)] else []) + AnnotationsDoc(m.annotations);
    var ss := [m.name] + (if m.initializer.Some? then ["=", m.initializer.value] else [])
              + (if Annotated(m.annotations) then [AnnotationsText(m.annotations.value)] else []);
    assert ReadsAs(ds, ss) by {
      if Annotated(m.annotations) {
        AnnotationsOneLine(m.annotations);
      }
    }
    JoinOneLine(" ", ds, ss);
    MemberText(m);
    var x := Concat([Join(Text(" "), ds), TrailingCommentsDoc(docs.2)]);
    SegmentsTwo(Join(Text(" "), ds), TrailingCommentsDoc(docs.2));
    CommentedLines(docs.0, x);
  }

  /**
   * The lines of an enum: the opening `enum name {`, each member's lines,
   * the inner comments and the closing `}` with its annotations; its post
   * comments are never printed.
   */
  lemma EnumLines(d: Definition, hasPrevious: bool)
    requires d.Enum?
    ensures
      var docs := CommentsDocs(d.comments);
      var st := "enum " + d.name + " {";
      var en := "}" + AnnotationSuffix(d.annotations);
      var ms := seq(|d.members|, i requires 0 <= i < |d.members| => MemberLines(d.members[i]));
      Segments(PrintEnum(d, hasPrevious))
      == (if hasPrevious then [""] else []) + Flatten(SegmentsEach(docs.0))
         + (if |docs.1| > 0 || |d.members| > 0 || Annotated(d.annotations)
            then [st] + Flatten(ms) + Flatten(SegmentsEach(docs.1)) + [en]
            else [st + en])
  {
    var docs := CommentsDocs(d.comments);
    var start := Concat([Text("enum"), Text(" "), Text(d.name), Text(" "), Text("{")]);
    var end := Join(Text(" "), [Text("}")] + AnnotationsDoc(d.annotations));
    var members := seq(|d.members|, i requires 0 <= i < |d.members| => PrintEnumMember(d.members[i]));
    var ms := seq(|d.members|, i requires 0 <= i < |d.members| => MemberLines(d.members[i]));
    assert PrintEnum(d, hasPrevious) == BlockDecl(hasPrevious, docs.0, start, members, docs.1, Annotated(d.annotations), end);
    OpeningLine("enum", d.name);
    assert "enum" + " " == "enum ";
    EnumClosing(d.annotations);
    BlockLinesOneLineEnd(hasPrevious, docs.0, start, members, docs.1, Annotated(d.annotations), end,
                         "enum " + d.name + " {", "}" + AnnotationSuffix(d.annotations));
    EnumMembersLines(d.members, members, ms);
  }

  lemma EnumMembersLines(ms: seq<EnumMember>, docs: seq<Doc>, lines: seq<seq<string>>)
    requires docs == seq(|ms|, i requires 0 <= i < |ms| => PrintEnumMember(ms[i]))
    requires lines == seq(|ms|, i requires 0 <= i < |ms| => MemberLines(ms[i]))
    ensures SegmentsEach(docs) == lines
  {
    forall i | 0 <= i < |ms| ensures Segments(docs[i]) == lines[i] {
      EnumMemberLines(ms[i]);
    }
  }

  /** An enum whose comments are all post comments prints as if it had none. */
  lemma EnumDropsPost(d: Definition, hasPrevious: bool)
    requires d.Enum?
    requires forall i :: 0 <= i < |d.comments| ==> d.comments[i].position == Post
    ensures PrintEnum(d, hasPrevious) == PrintEnum(Enum(d.name, d.members, d.annotations, []), hasPrevious)
  {
    OnePositionBuckets(d.comments, Post, |d.comments|);
    assert CommentsDocs(d.comments).0 == [] && CommentsDocs(d.comments).1 == [];
    assert CommentsDocs([]).0 == [] && CommentsDocs([]).1 == [] by {
      assert Bucket([], Pre, 0) == [] && Bucket([], InnerPost, 0) == [];
    }
  }

  // ----- service -----

  function ExtendsText(d: Definition): string
    requires d.Service?
  {
    if d.extendsName.Some? then " extends " + d.extendsName.value else ""
  }

  /** `service name extends base {`, the `extends` part exactly when the service extends another. */
  lemma ServiceOpening(d: Definition)
    requires d.Service?
    ensures Segments(Concat([Text("service"), Text(" "), Text(d.name),
                             if d.extendsName.Some? then Concat([Text(" "), Text("extends"), Text(" "), Text(d.extendsName.value)]) else Text(""),
                             Text(" "), Text("{")]))
            == ["service " + d.name + ExtendsText(d) + " {"]
  {
    var x := if d.extendsName.Some? then Concat([Text(" "), Text("extends"), Text(" "), Text(d.extendsName.value)]) else Text("");
    if d.extendsName.Some? {
      ExtendsPart(d.extendsName.value);
    }
    ServiceWords(d.name, x, ExtendsText(d));
  }

  lemma ExtendsPart(base: string)
    ensures Segments(Concat([Text(" "), Text("extends"), Text(" "), Text(base)])) == [" extends " + base]
  {
    var ds := [Text(" "), Text("extends"), Text(" "), Text(base)];
    assert ReadsAs(ds, [" ", "extends", " ", base]);
    OneLineParts(ds, [" ", "extends", " ", base]);
    Cat4(" ", "extends", " ", base);
    assert " " + "extends" + " " == " extends ";
  }

  lemma ServiceWords(name: string, x: Doc, ext: string)
    requires Segments(x) == [ext]
    ensures Segments(Concat([Text("service"), Text(" "), Text(name), x, Text(" "), Text("{")]))
            == ["service " + name + ext + " {"]
  {
    var ds := [Text("service"), Text(" "), Text(name), x, Text(" "), Text("{")];
    var ss := ["service", " ", name, ext, " ", "{"];
    assert ReadsAs(ds, ss);
    OneLineParts(ds, ss);
    Cat6(ss);
    assert "service" + " " == "service ";
    assert " " + "{" == " {";
    assert "service" + " " + name + ext + " " + "{" == "service " + name + ext + " {";
  }

  /**
   * The lines of a service whose functions carry no comments: the opening
   * line, one line per function, the inner comments and the closing `}` with
   * its annotations and post comments, or all of it on the opening line when
   * there are no functions, inner comments or annotations.
   */
  lemma ServiceLines(kw: KeywordNames, d: Definition, hasPrevious: bool)
    requires d.Service?
    requires forall i :: 0 <= i < |d.functions| ==> SimpleFunction(d.functions[i])
    ensures
      var docs := CommentsDocs(d.comments);
      var st := "service " + d.name + ExtendsText(d) + " {";
      var en := Glue(["}" + AnnotationSuffix(d.annotations) + " "], SegmentsOfSeq(docs.2));
      var fs := seq(|d.functions|, i requires 0 <= i < |d.functions| => FunctionText(kw, d.functions[i]));
      Segments(PrintService(kw, d, hasPrevious))
      == (if hasPrevious then [""] else []) + Flatten(SegmentsEach(docs.0))
         + (if |docs.1| > 0 || |d.functions| > 0 || Annotated(d.annotations)
            then [st] + fs + Flatten(SegmentsEach(docs.1)) + en
            else Glue([st], en))
  {
    var docs := CommentsDocs(d.comments);
    var start := Concat([Text("service"), Text(" "), Text(d.name),
                         if d.extendsName.Some? then Concat([Text(" "), Text("extends"), Text(" "), Text(d.extendsName.value)]) else Text(""),
                         Text(" "), Text("{")]);
    var end := Join(Text(" "), [Text("}")] + AnnotationsDoc(d.annotations) + [Concat(docs.2)]);
    var members := seq(|d.functions|, i requires 0 <= i < |d.functions| => PrintFunction(kw, d.functions[i]));
    var fs := seq(|d.functions|, i requires 0 <= i < |d.functions| => FunctionText(kw, d.functions[i]));
    assert PrintService(kw, d, hasPrevious) == BlockDecl(hasPrevious, docs.0, start, members, docs.1, Annotated(d.annotations), end);
    ServiceOpening(d);
    BlockLines(hasPrevious, docs.0, start, members, docs.1, Annotated(d.annotations), end, "service " + d.name + ExtendsText(d) + " {");
    PostClosing(d.annotations, docs.2);
    forall i | 0 <= i < |d.functions| ensures Segments(members[i]) == [fs[i]] {
      FunctionOneLine(kw, d.functions[i]);
    }
    FlattenOneLines(members, fs);
  }

  // ----- constant lists and maps -----

  /**
   * The lines a constant reads as: a scalar on one line; a list or map as its
   * opening bracket, each element's lines with a comma after the last of them
   * (or one empty line when there are no elements), and the closing bracket
   * on a line of its own.
   */
  function ConstLines(c: ConstValue): (r: seq<string>)
    ensures |r| >= 1
    decreases c, 1
  {
    match c
    case ConstList(es) =>
      ["["] + (if |es| == 0 then [""] else Flatten(seq(|es|, i requires 0 <= i < |es| => Glue(ConstLines(es[i]), [","])))) + ["]"]
    case ConstMap(ps) =>
      ["{"] + (if |ps| == 0 then [""] else Flatten(seq(|ps|, i requires 0 <= i < |ps| => Glue(PropertyLines(ps[i]), [","])))) + ["}"]
    case _ => [ScalarText(c)]
  }

  /**
   * A property reads as its leading comments' lines, then its key, `: ` and
   * its value, the value continuing the key's last line, then, when it has
   * post comments, a space and those comments continuing the value's last line.
   */
  function PropertyLines(p: PropertyAssignment): (r: seq<string>)
    ensures |r| >= 1
    decreases p, 2
  {
    var docs := CommentsDocs(p.comments);
    var entry := Glue(Glue(ConstLines(p.key), [": "]), ConstLines(p.initializer));
    Flatten(SegmentsEach(docs.0)) + (if |docs.2| > 0 then Glue(entry, Glue([" "], SegmentsOfSeq(docs.2))) else entry)
  }

  /** An opening text, an indented run after a line break, a line break and a closing text. */
  lemma Bracketed(open: string, close: string, j: Doc)
    ensures Segments(Concat([Text(open), Indent(Concat([Hardline, j])), Hardline, Text(close)]))
            == [open] + Segments(j) + [close]
  {
    var b := Indent(Concat([Hardline, j]));
    var js := Segments(j);
    assert [Text(open), b, Hardline, Text(close)] == [Text(open)] + [b, Hardline, Text(close)];
    SegmentsCons(Text(open), [b, Hardline, Text(close)]);
    BracketTail(j, close);
    GlueFront(open, js, close);
  }

  /** An indented run after a line break, then a line break and a closing text. */
  lemma BracketTail(j: Doc, close: string)
    ensures SegmentsOfSeq([Indent(Concat([Hardline, j])), Hardline, Text(close)]) == [""] + (Segments(j) + [close])
  {
    var js := Segments(j);
    SegmentsThree(Indent(Concat([Hardline, j])), Hardline, Text(close));
    BreakThen(j);
    GlueBeforeBreak([""] + js);
    GlueAfterLine([""] + js, [close]);
    Assoc3([""], js, [close]);
  }

  /** Sequence concatenation regrouped; a lemma of its own so the solver proves it outside `BracketTail`. */
  lemma Assoc3(a: seq<string>, b: seq<string>, c: seq<string>)
    ensures a + b + c == a + (b + c)
  {
  }

  lemma GlueFront(open: string, js: seq<string>, close: string)
    ensures Glue([open], [""] + (js + [close])) == [open] + js + [close]
  {
    GlueBreak([open], js + [close]);
  }

  /** The lines of the elements joined by line breaks: each element's lines in turn, or one empty line when there are none. */
  lemma ElementRun(ds: seq<Doc>, ls: seq<seq<string>>)
    requires SegmentsEach(ds) == ls
    ensures Segments(Join(Hardline, ds)) == if |ds| == 0 then [""] else Flatten(ls)
  {
    if |ds| > 0 {
      JoinHardlinesLines(ds);
    }
  }

  /** Every constant prints as `ConstLines` says. */
  lemma {:induction false} ConstLinesCorrect(c: ConstValue)
    ensures Segments(PrintConst(c)) == ConstLines(c)
    decreases c, 1
  {
    match c
    case ConstList(es) =>
      forall i | 0 <= i < |es| ensures Segments(PrintConst(es[i])) == ConstLines(es[i]) {
        ConstLinesCorrect(es[i]);
      }
      ConstListLines(c);
    case ConstMap(ps) =>
      forall i | 0 <= i < |ps| ensures Segments(PrintPropertyAssignment(ps[i])) == PropertyLines(ps[i]) {
        PropertyLinesCorrect(ps[i]);
      }
      ConstMapLines(c);
    case StringLiteral(_) => ScalarOneLine(c);
    case BooleanLiteral(_) => ScalarOneLine(c);
    case IntConstant(_) => ScalarOneLine(c);
    case DoubleConstant(_) => ScalarOneLine(c);
    case ConstIdentifier(_) => ScalarOneLine(c);
  }

  /** A list prints as `ConstLines` says once each element does. */
  lemma ConstListLines(c: ConstValue)
    requires c.ConstList?
    requires forall i :: 0 <= i < |c.elements| ==> Segments(PrintConst(c.elements[i])) == ConstLines(c.elements[i])
    ensures Segments(PrintConst(c)) == ConstLines(c)
  {
    var es := c.elements;
    var ds := seq(|es|, i requires 0 <= i < |es| => Concat([PrintConst(es[i]), Text(",")]));
    var ls := seq(|es|, i requires 0 <= i < |es| => Glue(ConstLines(es[i]), [","]));
    forall i | 0 <= i < |es| ensures Segments(ds[i]) == ls[i] {
      SegmentsTwo(PrintConst(es[i]), Text(","));
    }
    ElementRun(ds, ls);
    Bracketed("[", "]", Join(Hardline, ds));
  }

  /** A map prints as `ConstLines` says once each property does. */
  lemma ConstMapLines(c: ConstValue)
    requires c.ConstMap?
    requires forall i :: 0 <= i < |c.properties| ==> Segments(PrintPropertyAssignment(c.properties[i])) == PropertyLines(c.properties[i])
    ensures Segments(PrintConst(c)) == ConstLines(c)
  {
    var ps := c.properties;
    var ds := seq(|ps|, i requires 0 <= i < |ps| => Concat([PrintPropertyAssignment(ps[i]), Text(",")]));
    var ls := seq(|ps|, i requires 0 <= i < |ps| => Glue(PropertyLines(ps[i]), [","]));
    forall i | 0 <= i < |ps| ensures Segments(ds[i]) == ls[i] {
      SegmentsTwo(PrintPropertyAssignment(ps[i]), Text(","));
    }
    ElementRun(ds, ls);
    Bracketed("{", "}", Join(Hardline, ds));
  }

  lemma {:induction false} PropertyLinesCorrect(p: PropertyAssignment)
    ensures Segments(PrintPropertyAssignment(p)) == PropertyLines(p)
    decreases p, 2
  {
    ConstLinesCorrect(p.key);
    ConstLinesCorrect(p.initializer);
    var docs := CommentsDocs(p.comments);
    var pre, post := docs.0, docs.2;
    var entry := [PrintConst(p.key), Text(": "), PrintConst(p.initializer)];
    var x := Concat(entry + (if |post| > 0 then [LineSuffix(Concat([Text(" "), Concat(post)]))] else []));
    assert PrintPropertyAssignment(p) == Join(Hardline, pre + [x]);
    CommentedLines(pre, x);
    SegmentsThree(PrintConst(p.key), Text(": "), PrintConst(p.initializer));
    if |post| > 0 {
      SegmentsSnoc(entry, TrailingCommentsDoc(post));
      TrailingLines(post);
    } else {
      assert entry + [] == entry;
    }
  }

  // ----- one-line definitions -----

  lemma GluePrefix(a: seq<string>, x: string, b: seq<string>)
    requires |b| >= 1
    ensures Glue(a + [x], b) == a + Glue([x], b)
  {
    assert (a + [x])[..|a|] == a;
  }

  /** `join(space, [...xs, y])` for one-line parts `xs`: their text, a space, then `y` continuing that line. */
  lemma SpacedThen(xs: seq<Doc>, ts: seq<string>, y: Doc)
    requires |xs| >= 1 && ReadsAs(xs, ts)
    ensures Segments(Join(Text(" "), xs + [y])) == Glue([JoinStr(" ", ts) + " "], Segments(y))
  {
    InterleaveAppendOne(Text(" "), xs, y);
    var front := Interleave(Text(" "), xs) + [Text(" ")];
    assert Interleave(Text(" "), xs) + [Text(" "), y] == front + [y];
    SegmentsSnoc(front, y);
    SegmentsSnoc(Interleave(Text(" "), xs), Text(" "));
    JoinOneLine(" ", xs, ts);
  }

  /**
   * An include prints its leading comments on lines of their own, then
   * `include "path"` with any post comments after it on the same line.
   */
  lemma IncludeLines(d: Definition)
    requires d.Include?
    ensures
      var docs := CommentsDocs(d.comments);
      Segments(PrintInclude(d))
      == Flatten(SegmentsEach(docs.0)) + Glue(["include \"" + d.path + "\""], Segments(TrailingCommentsDoc(docs.2)))
  {
    var docs := CommentsDocs(d.comments);
    var q := Concat([Text(Quote), Text(d.path), Text(Quote)]);
    var line := "include \"" + d.path + "\"";
    assert Segments(q) == [Quote + d.path + Quote] by {
      assert ReadsAs([Text(Quote), Text(d.path), Text(Quote)], [Quote, d.path, Quote]);
      OneLineParts([Text(Quote), Text(d.path), Text(Quote)], [Quote, d.path, Quote]);
      Cat3(Quote, d.path, Quote);
    }
    var j := Join(Text(" "), [Text("include"), q]);
    assert Segments(j) == [line] by {
      JoinOneLine(" ", [Text("include"), q], ["include", Quote + d.path + Quote]);
      JoinStrCons(" ", "include", [Quote + d.path + Quote]);
      assert "include" + " " + (Quote + d.path + Quote) == "include " + Quote + d.path + Quote;
      assert "include " + Quote == "include \"";
    }
    SegmentsThree(PreCommentsDoc(docs.0), j, TrailingCommentsDoc(docs.2));
    PreRun(docs.0);
    GlueAfterLine(Flatten(SegmentsEach(docs.0)), [line]);
    GluePrefix(Flatten(SegmentsEach(docs.0)), line, Segments(TrailingCommentsDoc(docs.2)));
  }

  /** A namespace prints as `namespace scope name` on one line. */
  lemma NamespaceLine(d: Definition)
    requires d.Namespace?
    ensures Segments(PrintNamespace(d)) == ["namespace " + d.scope + " " + d.name]
  {
    var ss := ["namespace", " ", d.scope, " ", d.name];
    assert ReadsAs(PrintNamespace(d).parts, ss);
    OneLineParts(PrintNamespace(d).parts, ss);
    Cat5("namespace", " ", d.scope, " ", d.name);
    assert "namespace" + " " == "namespace ";
  }

  /** Three words and at most one more, joined by spaces. */
  lemma JoinThreeWords(a: string, b: string, c: string, more: seq<string>)
    requires |more| <= 1
    ensures JoinStr(" ", [a, b, c] + more) == a + " " + b + " " + c + (if |more| == 1 then " " + more[0] else "")
  {
    if |more| == 1 {
      assert [a, b, c] + more == [a, b, c, more[0]];
      JoinFourWords(a, b, c, more[0]);
    } else {
      assert [a, b, c] + more == [a, b, c];
      JoinOnlyThree(a, b, c);
    }
  }

  lemma JoinOnlyThree(a: string, b: string, c: string)
    ensures JoinStr(" ", [a, b, c]) == a + " " + b + " " + c + ""
  {
    assert [b, c] == [b] + [c];
    JoinStrCons(" ", b, [c]);
    assert [a, b, c] == [a] + [b, c];
    JoinStrCons(" ", a, [b, c]);
    assert a + " " + (b + " " + c) == a + " " + b + " " + c + "";
  }

  lemma JoinFourWords(a: string, b: string, c: string, d: string)
    ensures JoinStr(" ", [a, b, c, d]) == a + " " + b + " " + c + (" " + d)
  {
    var j3 := JoinStr(" ", [c, d]);
    assert [c, d] == [c] + [d];
    JoinStrCons(" ", c, [d]);
    var j2 := JoinStr(" ", [b, c, d]);
    assert [b, c, d] == [b] + [c, d];
    JoinStrCons(" ", b, [c, d]);
    assert [a, b, c, d] == [a] + [b, c, d];
    JoinStrCons(" ", a, [b, c, d]);
    assert a + " " + (b + " " + (c + " " + d)) == a + " " + b + " " + c + (" " + d);
  }

  /** `typedef type name (annotations)` joined by spaces. */
  lemma TypedefText(kw: KeywordNames, t: FieldType, name: string, annotations: Option<seq<Annotation>>)
    ensures
      JoinStr(" ", ["typedef", TypeText(kw, t), name]
                   + (if Annotated(annotations) then [AnnotationsText(annotations.value)] else []))
      == "typedef " + TypeText(kw, t) + " " + name + AnnotationSuffix(annotations)
  {
    var more := if Annotated(annotations) then [AnnotationsText(annotations.value)] else [];
    JoinThreeWords("typedef", TypeText(kw, t), name, more);
    assert "typedef" + " " == "typedef ";
  }

  /** The words of a typedef, a space, then `y` continuing that line. */
  lemma TypedefHead(kw: KeywordNames, t: FieldType, name: string, annotations: Option<seq<Annotation>>, y: Doc)
    ensures Segments(Join(Text(" "), [Text("typedef"), PrintType(kw, t), Text(name)] + AnnotationsDoc(annotations) + [y]))
            == Glue(["typedef " + TypeText(kw, t) + " " + name + AnnotationSuffix(annotations) + " "], Segments(y))
  {
    var xs := [Text("typedef"), PrintType(kw, t), Text(name)] + AnnotationsDoc(annotations);
    var ts := ["typedef", TypeText(kw, t), name]
              + (if Annotated(annotations) then [AnnotationsText(annotations.value)] else []);
    assert ReadsAs(xs, ts) by {
      TypeOneLine(kw, t);
      if Annotated(annotations) {
        AnnotationsOneLine(annotations);
      }
    }
    SpacedThen(xs, ts, y);
    TypedefText(kw, t, name, annotations);
  }

  /**
   * A typedef prints its leading comments on lines of their own, then
   * `typedef type name (annotations) ` (with a space before the post
   * comments, present even when there are none) and its post comments.
   */
  lemma TypedefLines(kw: KeywordNames, d: Definition)
    requires d.Typedef?
    ensures
      var docs := CommentsDocs(d.comments);
      Segments(PrintTypedef(kw, d))
      == Flatten(SegmentsEach(docs.0))
         + Glue(["typedef " + TypeText(kw, d.definitionType) + " " + d.name + AnnotationSuffix(d.annotations) + " "],
                SegmentsOfSeq(docs.2))
  {
    var docs := CommentsDocs(d.comments);
    var y := LineSuffix(Concat(docs.2));
    TypedefHead(kw, d.definitionType, d.name, d.annotations, y);
    CommentedLines(docs.0, Join(Text(" "), [Text("typedef"), PrintType(kw, d.definitionType), Text(d.name)]
                                           + AnnotationsDoc(d.annotations) + [y]));
  }

  /** `join(space, [...xs, c, y])` for one-line parts `xs`: their text and a space, then `c`, a space and `y`. */
  lemma SpacedAround(xs: seq<Doc>, ts: seq<string>, c: Doc, y: Doc)
    requires |xs| >= 1 && ReadsAs(xs, ts)
    ensures Segments(Join(Text(" "), xs + [c, y]))
            == Glue(Glue(Glue([JoinStr(" ", ts) + " "], Segments(c)), [" "]), Segments(y))
  {
    InterleaveAppendOne(Text(" "), xs + [c], y);
    InterleaveAppendOne(Text(" "), xs, c);
    var front := Interleave(Text(" "), xs) + [Text(" ")];
    assert Interleave(Text(" "), xs + [c, y]) == front + [c] + [Text(" ")] + [y] by {
      assert xs + [c, y] == (xs + [c]) + [y];
    }
    SegmentsSnoc(front + [c] + [Text(" ")], y);
    SegmentsSnoc(front + [c], Text(" "));
    SegmentsSnoc(front, c);
    SegmentsSnoc(Interleave(Text(" "), xs), Text(" "));
    JoinOneLine(" ", xs, ts);
  }

  /**
   * A constant definition prints its leading comments on lines of their
   * own, then `const type name = ` followed by the lines of the value, a
   * space, and its post comments.
   */
  lemma ConstDefinitionLines(kw: KeywordNames, d: Definition)
    requires d.Const?
    ensures
      var docs := CommentsDocs(d.comments);
      Segments(PrintConstDefinition(kw, d))
      == Flatten(SegmentsEach(docs.0))
         + Glue(Glue(Glue(["const " + TypeText(kw, d.fieldType) + " " + d.name + " = "], ConstLines(d.initializer)), [" "]),
                SegmentsOfSeq(docs.2))
  {
    var docs := CommentsDocs(d.comments);
    var xs := [Text("const"), PrintType(kw, d.fieldType), Text(d.name), Text("=")];
    var ts := ["const", TypeText(kw, d.fieldType), d.name, "="];
    var c := PrintConst(d.initializer);
    var y := LineSuffix(Concat(docs.2));
    assert ReadsAs(xs, ts) by {
      TypeOneLine(kw, d.fieldType);
    }
    SpacedAround(xs, ts, c, y);
    assert ts == ["const", TypeText(kw, d.fieldType), d.name] + ["="];
    JoinThreeWords("const", TypeText(kw, d.fieldType), d.name, ["="]);
    assert JoinStr(" ", ts) + " " == "const " + TypeText(kw, d.fieldType) + " " + d.name + " = ";
    ConstLinesCorrect(d.initializer);
    assert xs + [c, y] == [Text("const"), PrintType(kw, d.fieldType), Text(d.name), Text("="), c, y];
    assert PrintConstDefinition(kw, d) == Join(Hardline, docs.0 + [Join(Text(" "), xs + [c, y])]);
    CommentedLines(docs.0, Join(Text(" "), xs + [c, y]));
  }

  // ----- statements and the document -----

  /**
   * A previous sibling puts one empty line before a struct, union,
   * exception, enum or service, and changes nothing for the other statements.
   */
  lemma PreviousSibling(kw: KeywordNames, d: Definition)
    requires !d.Unsupported?
    ensures d.Struct? || d.Enum? || d.Service? ==>
              Segments(PrintDefinition(kw, d, true).value) == [""] + Segments(PrintDefinition(kw, d, false).value)
    ensures !(d.Struct? || d.Enum? || d.Service?) ==> PrintDefinition(kw, d, true) == PrintDefinition(kw, d, false)
  {
    match d
    case Struct(_, _, _, _, _) =>
      var docs := CommentsDocs(d.comments);
      BlockPrevious(docs.0, Concat([Text("struct"), Text(" "), Text(d.name), Text(" "), Text("{")]), FieldDocs(kw, d.fields),
                    docs.1, Annotated(d.annotations), Join(Text(" "), [Text("}")] + AnnotationsDoc(d.annotations) + [Concat(docs.2)]));
    case Enum(_, _, _, _) =>
      var docs := CommentsDocs(d.comments);
      BlockPrevious(docs.0, Concat([Text("enum"), Text(" "), Text(d.name), Text(" "), Text("{")]),
                    seq(|d.members|, i requires 0 <= i < |d.members| => PrintEnumMember(d.members[i])),
                    docs.1, Annotated(d.annotations), Join(Text(" "), [Text("}")] + AnnotationsDoc(d.annotations)));
    case Service(_, _, _, _, _) =>
      var docs := CommentsDocs(d.comments);
      BlockPrevious(docs.0, Concat([Text("service"), Text(" "), Text(d.name),
                                    if d.extendsName.Some? then Concat([Text(" "), Text("extends"), Text(" "), Text(d.extendsName.value)]) else Text(""),
                                    Text(" "), Text("{")]),
                    seq(|d.functions|, i requires 0 <= i < |d.functions| => PrintFunction(kw, d.functions[i])),
                    docs.1, Annotated(d.annotations), Join(Text(" "), [Text("}")] + AnnotationsDoc(d.annotations) + [Concat(docs.2)]));
    case _ =>
  }

  /** The lines of a statement, told whether it has a previous sibling; none when it has no printing rule. */
  function StatementLines(kw: KeywordNames, d: Definition, hasPrevious: bool): seq<string> {
    match PrintDefinition(kw, d, hasPrevious)
    case Success(x) => Segments(x)
    case Failure(_) => []
  }

  /**
   * A printed document reads as the lines of each statement in turn, each
   * starting on a new line, the first with no previous sibling and every
   * later one with one, and it ends with a line break; an empty document is
   * a single line break.
   */
  lemma DocumentLines(kw: KeywordNames, doc: Document)
    requires PrintDocument(kw, doc).Success?
    ensures
      var ls := seq(|doc.body|, k requires 0 <= k < |doc.body| => StatementLines(kw, doc.body[k], k > 0));
      Segments(PrintDocument(kw, doc).value) == if |doc.body| == 0 then ["", ""] else Flatten(ls) + [""]
  {
    var ls := seq(|doc.body|, k requires 0 <= k < |doc.body| => StatementLines(kw, doc.body[k], k > 0));
    var ds := PrintBody(kw, doc.body, 0).value;
    assert PrintDocument(kw, doc).value == Concat([Join(Hardline, ds), Hardline]);
    ThenBreak(Join(Hardline, ds));
    assert forall k :: 0 <= k < |doc.body| ==> Success(ds[k - 0]) == PrintDefinition(kw, doc.body[k], k > 0);
    BodyLines(kw, doc.body, ds);
    assert SegmentsEach(ds) == ls;
    ElementRun(ds, ls);
  }

  lemma ThenBreak(x: Doc)
    ensures Segments(Concat([x, Hardline])) == Segments(x) + [""]
  {
    SegmentsTwo(x, Hardline);
    GlueBeforeBreak(Segments(x));
  }

  lemma BodyLines(kw: KeywordNames, body: seq<Definition>, ds: seq<Doc>)
    requires |ds| == |body|
    requires forall k :: 0 <= k < |body| ==> Success(ds[k]) == PrintDefinition(kw, body[k], k > 0)
    ensures forall k :: 0 <= k < |ds| ==> Segments(ds[k]) == StatementLines(kw, body[k], k > 0)
  {
  }
}
