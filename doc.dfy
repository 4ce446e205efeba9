/**
 * A model of the layout documents built with prettier's `doc.builders`.
 * The layout engine itself is not modelled; `Segments` only reads off the
 * text of a document line by line, where a line ends at every `Hardline`,
 * indentation is ignored and a line suffix is read in place.
 */
module Docs {

  datatype Doc =
    | Text(s: string)
    | Concat(parts: seq<Doc>)
    | Hardline
    | Indent(body: Doc)
    | LineSuffix(body: Doc)
    | DedentToRoot(body: Doc)

  /** The argument list that `join(sep, xs)` builds: the elements of `xs` with `sep` between neighbours. */
  function Interleave(sep: Doc, xs: seq<Doc>): (r: seq<Doc>)
    ensures |r| == if xs == [] then 0 else 2 * |xs| - 1
  {
    if |xs| <= 1 then xs else [xs[0], sep] + Interleave(sep, xs[1..])
  }

  /** prettier's `join(sep, xs)`. */
  function Join(sep: Doc, xs: seq<Doc>): Doc {
    Concat(Interleave(sep, xs))
  }

  /** A document made of one text per string, in order. */
  function Texts(ss: seq<string>): (r: seq<Doc>)
    ensures |r| == |ss| && forall i :: 0 <= i < |ss| ==> r[i] == Text(ss[i])
  {
    seq(|ss|, i requires 0 <= i < |ss| => Text(ss[i]))
  }

  /** Two runs of lines, where the last line of `a` continues with the first line of `b`. */
  function Glue(a: seq<string>, b: seq<string>): (r: seq<string>)
    requires |a| >= 1 && |b| >= 1
    ensures |r| == |a| + |b| - 1
  {
    a[..|a| - 1] + [a[|a| - 1] + b[0]] + b[1..]
  }

  /** The lines of text a document reads as. */
  function Segments(d: Doc): (r: seq<string>)
    ensures |r| >= 1
  {
    match d
    case Text(s) => [s]
    case Hardline => ["", ""]
    case Indent(x) => Segments(x)
    case LineSuffix(x) => Segments(x)
    case DedentToRoot(x) => Segments(x)
    case Concat(ds) => SegmentsOfSeq(ds)
  }

  function SegmentsOfSeq(ds: seq<Doc>): (r: seq<string>)
    ensures |r| >= 1
  {
    if ds == [] then [""] else Glue(Segments(ds[0]), SegmentsOfSeq(ds[1..]))
  }

  /** `ss` joined into one string with `sep` between neighbours, as JavaScript's `Array.join`. */
  function JoinStr(sep: string, ss: seq<string>): string {
    if ss == [] then "" else if |ss| == 1 then ss[0] else ss[0] + sep + JoinStr(sep, ss[1..])
  }

  lemma GlueUnit(a: seq<string>)
    requires |a| >= 1
    ensures Glue([""], a) == a && Glue(a, [""]) == a
  {
    assert "" + a[0] == a[0];
    assert a[|a| - 1] + "" == a[|a| - 1];
    assert a[..|a| - 1] + [a[|a| - 1]] == a;
  }

  /** Gluing onto lines that start with an empty one just appends the rest. */
  lemma GlueBreak(a: seq<string>, b: seq<string>)
    requires |a| >= 1
    ensures Glue(a, [""] + b) == a + b
  {
    assert a[|a| - 1] + "" == a[|a| - 1];
    assert ([""] + b)[1..] == b;
    assert a[..|a| - 1] + [a[|a| - 1]] == a;
  }

  lemma GlueAssoc(a: seq<string>, b: seq<string>, c: seq<string>)
    requires |a| >= 1 && |b| >= 1 && |c| >= 1
    ensures Glue(Glue(a, b), c) == Glue(a, Glue(b, c))
  {
    var pa, x := a[..|a| - 1], a[|a| - 1];
    if |b| == 1 {
      assert Glue(a, b) == pa + [x + b[0]];
      assert Glue(b, c) == [b[0] + c[0]] + c[1..];
      assert (x + b[0]) + c[0] == x + (b[0] + c[0]);
    } else {
      var ab := Glue(a, b);
      assert ab == pa + [x + b[0]] + b[1..];
      assert ab[..|ab| - 1] == pa + [x + b[0]] + b[1..|b| - 1];
      assert ab[|ab| - 1] == b[|b| - 1];
      var bc := Glue(b, c);
      assert bc == [b[0]] + b[1..|b| - 1] + [b[|b| - 1] + c[0]] + c[1..];
      assert bc[0] == b[0];
      assert bc[1..] == b[1..|b| - 1] + [b[|b| - 1] + c[0]] + c[1..];
    }
  }

  /** The lines of a concatenation are those of its two halves glued together. */
  lemma {:induction false} SegmentsOfAppend(a: seq<Doc>, b: seq<Doc>)
    ensures SegmentsOfSeq(a + b) == Glue(SegmentsOfSeq(a), SegmentsOfSeq(b))
  {
    if a == [] {
      assert a + b == b;
      GlueUnit(SegmentsOfSeq(b));
    } else {
      assert (a + b)[0] == a[0] && (a + b)[1..] == a[1..] + b;
      SegmentsOfAppend(a[1..], b);
      GlueAssoc(Segments(a[0]), SegmentsOfSeq(a[1..]), SegmentsOfSeq(b));
    }
  }

  /** The strings of `ss` one after another. */
  function Cat(ss: seq<string>): string {
    if ss == [] then "" else ss[0] + Cat(ss[1..])
  }

  lemma {:induction false} CatAppend(a: seq<string>, b: seq<string>)
    ensures Cat(a + b) == Cat(a) + Cat(b)
  {
    if a == [] {
      assert a + b == b;
    } else {
      assert (a + b)[1..] == a[1..] + b;
      CatAppend(a[1..], b);
    }
  }

  lemma {:induction false} JoinStrNoSeparator(ss: seq<string>)
    ensures JoinStr("", ss) == Cat(ss)
  {
    if |ss| == 1 {
      assert Cat(ss) == ss[0] + Cat([]);
    } else if |ss| > 1 {
      JoinStrNoSeparator(ss[1..]);
    }
  }

  /** Each document of `ds` reads as the one line at the same index of `ss`. */
  ghost predicate ReadsAs(ds: seq<Doc>, ss: seq<string>) {
    |ds| == |ss| && forall i :: 0 <= i < |ds| ==> Segments(ds[i]) == [ss[i]]
  }

  lemma ReadsAsAppend(ds1: seq<Doc>, ss1: seq<string>, ds2: seq<Doc>, ss2: seq<string>)
    requires ReadsAs(ds1, ss1) && ReadsAs(ds2, ss2)
    ensures ReadsAs(ds1 + ds2, ss1 + ss2)
  {
    forall i | 0 <= i < |ds1 + ds2|
      ensures Segments((ds1 + ds2)[i]) == [(ss1 + ss2)[i]]
    {
      if i >= |ds1| {
        assert (ds1 + ds2)[i] == ds2[i - |ds1|];
      }
    }
  }

  /** A document whose parts each read as one line reads as one line: their concatenation. */
  lemma {:induction false} OneLineParts(ds: seq<Doc>, ss: seq<string>)
    requires ReadsAs(ds, ss)
    ensures SegmentsOfSeq(ds) == [Cat(ss)]
  {
    if ds != [] {
      assert ReadsAs(ds[1..], ss[1..]) by {
        forall i | 0 <= i < |ds[1..]| ensures Segments(ds[1..][i]) == [ss[1..][i]] {
          assert ds[1..][i] == ds[i + 1];
        }
      }
      OneLineParts(ds[1..], ss[1..]);
      assert Segments(ds[0]) == [ss[0]];
    }
  }

  /** Joining one-line documents with a one-line separator reads as the joined string. */
  lemma {:induction false} JoinOneLine(sep: string, ds: seq<Doc>, ss: seq<string>)
    requires |ds| == |ss|
    requires forall i :: 0 <= i < |ds| ==> Segments(ds[i]) == [ss[i]]
    ensures Segments(Join(Text(sep), ds)) == [JoinStr(sep, ss)]
  {
    if |ds| <= 1 {
      if |ds| == 1 {
        assert Segments(ds[0]) == [ss[0]];
        assert SegmentsOfSeq(ds[1..]) == [""];
        assert ss[0] + "" == ss[0];
      }
    } else {
      JoinOneLine(sep, ds[1..], ss[1..]);
      var rest := Interleave(Text(sep), ds[1..]);
      assert Interleave(Text(sep), ds) == [ds[0], Text(sep)] + rest;
      assert Segments(ds[0]) == [ss[0]];
      SegmentsOfAppend([ds[0], Text(sep)], rest);
      assert ReadsAs([ds[0], Text(sep)], [ss[0], sep]);
      OneLineParts([ds[0], Text(sep)], [ss[0], sep]);
      assert Cat([ss[0], sep]) == ss[0] + sep by {
        assert [ss[0], sep][1..] == [sep];
        assert Cat([sep]) == sep + Cat([]);
      }
    }
  }

  /** Joining one-line documents with hard line breaks puts each on a line of its own, in order. */
  lemma {:induction false} JoinHardlines(ds: seq<Doc>, ss: seq<string>)
    requires |ds| == |ss| >= 1
    requires forall i :: 0 <= i < |ds| ==> Segments(ds[i]) == [ss[i]]
    ensures Segments(Join(Hardline, ds)) == ss
  {
    if |ds| == 1 {
      assert Segments(ds[0]) == [ss[0]];
      assert SegmentsOfSeq(ds[1..]) == [""];
      assert ss[0] + "" == ss[0];
    } else {
      JoinHardlines(ds[1..], ss[1..]);
      JoinHardlinesStep(ds[0], ds[1..]);
      assert [ds[0]] + ds[1..] == ds;
      assert ss == [ss[0]] + ss[1..];
    }
  }

  lemma SegmentsOne(a: Doc)
    ensures SegmentsOfSeq([a]) == Segments(a)
  {
    assert [a][1..] == [];
    GlueUnit(Segments(a));
  }

  lemma SegmentsTwo(a: Doc, b: Doc)
    ensures SegmentsOfSeq([a, b]) == Glue(Segments(a), Segments(b))
  {
    assert [a, b][1..] == [b];
    SegmentsOne(b);
  }

  lemma SegmentsThree(a: Doc, b: Doc, c: Doc)
    ensures SegmentsOfSeq([a, b, c]) == Glue(Glue(Segments(a), Segments(b)), Segments(c))
  {
    assert [a, b, c][1..] == [b, c];
    SegmentsTwo(b, c);
    GlueAssoc(Segments(a), Segments(b), Segments(c));
  }

  lemma CatCons(a: string, rest: seq<string>)
    ensures Cat([a] + rest) == a + Cat(rest)
  {
    assert ([a] + rest)[1..] == rest;
  }

  lemma Cat2(a: string, b: string)
    ensures Cat([a, b]) == a + b
  {
    CatCons(a, [b]);
    CatCons(b, []);
  }

  lemma Cat3(a: string, b: string, c: string)
    ensures Cat([a, b, c]) == a + b + c
  {
    assert [a, b, c] == [a] + [b, c];
    CatCons(a, [b, c]);
    Cat2(b, c);
  }

  lemma Cat4(a: string, b: string, c: string, d: string)
    ensures Cat([a, b, c, d]) == a + b + c + d
  {
    assert [a, b, c, d] == [a] + [b, c, d];
    CatCons(a, [b, c, d]);
    Cat3(b, c, d);
  }

  /** The lines of a sequence of documents with one more document at the end. */
  lemma SegmentsSnoc(ds: seq<Doc>, x: Doc)
    ensures SegmentsOfSeq(ds + [x]) == Glue(SegmentsOfSeq(ds), Segments(x))
  {
    SegmentsOfAppend(ds, [x]);
    SegmentsOne(x);
  }

  /** A hard line break at the front adds one empty line. */
  lemma GlueAfterBreak(b: seq<string>)
    requires |b| >= 1
    ensures Glue(["", ""], b) == [""] + b
  {
    assert "" + b[0] == b[0];
    assert [b[0]] + b[1..] == b;
  }

  /** A hard line break at the end adds one empty line. */
  lemma GlueBeforeBreak(a: seq<string>)
    requires |a| >= 1
    ensures Glue(a, ["", ""]) == a + [""]
  {
    assert a[|a| - 1] + "" == a[|a| - 1];
    assert a[..|a| - 1] + [a[|a| - 1]] == a;
  }

  /** A run that ends in an empty line, followed by another run: the other run starts on that line. */
  lemma GlueAfterLine(a: seq<string>, b: seq<string>)
    requires |b| >= 1
    ensures Glue(a + [""], b) == a + b
  {
    assert (a + [""])[..|a|] == a;
    assert "" + b[0] == b[0];
    assert [b[0]] + b[1..] == b;
  }

  /** Runs of lines one after the other. */
  function Flatten(ls: seq<seq<string>>): seq<string> {
    if ls == [] then [] else ls[0] + Flatten(ls[1..])
  }

  /** The lines of each document in turn. */
  function SegmentsEach(ds: seq<Doc>): (r: seq<seq<string>>)
    ensures |r| == |ds| && forall i :: 0 <= i < |ds| ==> r[i] == Segments(ds[i])
  {
    seq(|ds|, i requires 0 <= i < |ds| => Segments(ds[i]))
  }

  /** Joining documents with hard line breaks starts each of them on a new line, in order. */
  lemma {:induction false} JoinHardlinesLines(ds: seq<Doc>)
    requires |ds| >= 1
    ensures Segments(Join(Hardline, ds)) == Flatten(SegmentsEach(ds))
  {
    var s0 := Segments(ds[0]);
    if |ds| == 1 {
      assert SegmentsOfSeq(ds[1..]) == [""];
      GlueUnit(s0);
      assert SegmentsEach(ds)[1..] == [];
      assert Flatten(SegmentsEach(ds)) == s0 + [];
      assert s0 + [] == s0;
    } else {
      JoinHardlinesLines(ds[1..]);
      JoinHardlinesStep(ds[0], ds[1..]);
      assert [ds[0]] + ds[1..] == ds;
      assert SegmentsEach(ds)[1..] == SegmentsEach(ds[1..]);
    }
  }

  /** One more document in front of a hard-line join puts its lines in front. */
  lemma JoinHardlinesStep(d: Doc, ds: seq<Doc>)
    requires |ds| >= 1
    ensures Segments(Join(Hardline, [d] + ds)) == Segments(d) + Segments(Join(Hardline, ds))
  {
    var s0 := Segments(d);
    var rest := Interleave(Hardline, ds);
    assert ([d] + ds)[1..] == ds;
    assert Interleave(Hardline, [d] + ds) == [d, Hardline] + rest;
    SegmentsOfAppend([d, Hardline], rest);
    SegmentsTwo(d, Hardline);
    GlueBeforeBreak(s0);
    GlueAfterLine(s0, Segments(Join(Hardline, ds)));
  }
}
