/**
 * How the printer renders comments (`printCommentLine`, `printCommentBlock`)
 * and how it sorts a node's comments into the three position buckets
 * (`helpers.getCommentsDocs`).
 */
module Comments {
  import opened Wrappers
  import opened Ast
  import opened Docs

  /**
   * Whether a blank line is kept before comment `c`, whose previous sibling in
   * the node's comment list is `prev`. A previous sibling with another
   * position counts as none, and with none the previous end line is infinity,
   * so the gap is never two or more.
   */
  predicate ExtraBreak(c: Comment, prev: Option<Comment>) {
    prev.Some? && prev.value.position == c.position && c.loc.startLine - prev.value.loc.endLine >= 2
  }

  function LeadingBreak(c: Comment, prev: Option<Comment>): Doc {
    if ExtraBreak(c, prev) then Hardline else Text("")
  }

  function PrintCommentLine(c: Comment, prev: Option<Comment>): Doc
    requires c.CommentLine?
  {
    Concat([LeadingBreak(c, prev), Text(c.text)])
  }

  function PrintCommentBlock(c: Comment, prev: Option<Comment>): Doc
    requires c.CommentBlock?
  {
    if |c.lines| == 1 then
      Concat([LeadingBreak(c, prev), Text(c.lines[0])])
    else
      Concat([LeadingBreak(c, prev), Text(c.lines[0]),
              DedentToRoot(Concat([Hardline, Join(Hardline, Texts(c.lines[1..]))]))])
  }

  /** The `print` dispatch for the two comment node types. */
  function PrintComment(c: Comment, prev: Option<Comment>): Doc {
    match c
    case CommentLine(_, _, _) => PrintCommentLine(c, prev)
    case CommentBlock(_, _, _) => PrintCommentBlock(c, prev)
  }

  /** The lines of source text a comment holds. */
  function StoredLines(c: Comment): (r: seq<string>)
    ensures |r| >= 1
  {
    match c
    case CommentLine(text, _, _) => [text]
    case CommentBlock(lines, _, _) => lines
  }

  /** The break (if any) and the first stored line read as an optional empty line and then that line. */
  lemma LeadSegments(c: Comment, prev: Option<Comment>, first: string)
    ensures SegmentsOfSeq([LeadingBreak(c, prev), Text(first)]) == (if ExtraBreak(c, prev) then [""] else []) + [first]
  {
    SegmentsTwo(LeadingBreak(c, prev), Text(first));
    assert "" + first == first;
  }

  /** The remaining lines of a block comment, each after a hard line break. */
  lemma TailSegments(rest: seq<string>)
    requires |rest| >= 1
    ensures Segments(DedentToRoot(Concat([Hardline, Join(Hardline, Texts(rest))]))) == [""] + rest
  {
    JoinHardlines(Texts(rest), rest);
    SegmentsTwo(Hardline, Join(Hardline, Texts(rest)));
    assert "" + rest[0] == rest[0];
  }

  lemma BlockShapeSegments(lead: Doc, first: string, rest: seq<string>)
    requires |rest| >= 1
    ensures Segments(Concat([lead, Text(first), DedentToRoot(Concat([Hardline, Join(Hardline, Texts(rest))]))]))
            == Glue(Segments(lead), [first]) + rest
  {
    var tail := DedentToRoot(Concat([Hardline, Join(Hardline, Texts(rest))]));
    TailSegments(rest);
    SegmentsThree(lead, Text(first), tail);
    GlueBreak(Glue(Segments(lead), [first]), rest);
  }

  lemma MultiLineBlockSegments(c: Comment, prev: Option<Comment>)
    requires c.CommentBlock? && |c.lines| > 1
    ensures Segments(PrintCommentBlock(c, prev)) == (if ExtraBreak(c, prev) then [""] else []) + c.lines
  {
    var first, rest := c.lines[0], c.lines[1..];
    var lead := LeadingBreak(c, prev);
    var e := if ExtraBreak(c, prev) then [""] else [];
    assert PrintCommentBlock(c, prev)
           == Concat([lead, Text(first), DedentToRoot(Concat([Hardline, Join(Hardline, Texts(rest))]))]);
    BlockShapeSegments(lead, first, rest);
    assert Glue(Segments(lead), [first]) == e + [first] by {
      SegmentsTwo(lead, Text(first));
      LeadSegments(c, prev, first);
    }
    SplitFirst(e, c.lines);
  }

  lemma SplitFirst(e: seq<string>, lines: seq<string>)
    requires |lines| >= 1
    ensures e + [lines[0]] + lines[1..] == e + lines
  {
    assert lines == [lines[0]] + lines[1..];
  }

  /**
   * A printed comment reads as its stored lines, each once and in order, on
   * lines of their own, after one empty line exactly when `ExtraBreak` holds.
   */
  lemma CommentSegments(c: Comment, prev: Option<Comment>)
    ensures Segments(PrintComment(c, prev)) == (if ExtraBreak(c, prev) then [""] else []) + StoredLines(c)
  {
    match c
    case CommentLine(text, _, _) =>
      LeadSegments(c, prev, text);
    case CommentBlock(lines, _, _) =>
      if |lines| > 1 {
        MultiLineBlockSegments(c, prev);
      } else {
        LeadSegments(c, prev, lines[0]);
      }
  }

  /** The doc for the comment at index `i`, whose previous sibling is the comment at `i - 1`. */
  function PrintCommentAt(cs: seq<Comment>, i: nat): Doc
    requires i < |cs|
  {
    PrintComment(cs[i], if i == 0 then None else Some(cs[i - 1]))
  }

  /**
   * The indices below `n` of the comments at position `pos`: exactly those
   * indices, each once, in increasing (source) order.
   */
  function Bucket(cs: seq<Comment>, pos: Position, n: nat): (ix: seq<nat>)
    requires n <= |cs|
    ensures forall k :: 0 <= k < |ix| ==> ix[k] < n && cs[ix[k]].position == pos
    ensures forall j :: 0 <= j < n && cs[j].position == pos ==> j in ix
    ensures forall k, l :: 0 <= k < l < |ix| ==> ix[k] < ix[l]
  {
    if n == 0 then []
    else Bucket(cs, pos, n - 1) + (if cs[n - 1].position == pos then [n - 1] else [])
  }

  /** The docs of the comments at position `pos` among the first `n`, in source order. */
  function BucketDocs(cs: seq<Comment>, pos: Position, n: nat): seq<Doc>
    requires n <= |cs|
  {
    var ix := Bucket(cs, pos, n);
    seq(|ix|, k requires 0 <= k < |ix| => PrintCommentAt(cs, ix[k]))
  }

  /** The three buckets `getCommentsDocs` returns: pre, inner-post and post comment docs. */
  function CommentsDocs(cs: seq<Comment>): (seq<Doc>, seq<Doc>, seq<Doc>) {
    (BucketDocs(cs, Pre, |cs|), BucketDocs(cs, InnerPost, |cs|), BucketDocs(cs, Post, |cs|))
  }

  /** `helpers.getCommentsDocs`: one pass over the comments, pushing each doc onto the array of its position. */
  method GetCommentsDocs(cs: seq<Comment>) returns (pre: seq<Doc>, innerPost: seq<Doc>, post: seq<Doc>)
    ensures (pre, innerPost, post) == CommentsDocs(cs)
  {
    pre, innerPost, post := [], [], [];
    var i := 0;
    while i < |cs|
      invariant 0 <= i <= |cs|
      invariant pre == BucketDocs(cs, Pre, i)
      invariant innerPost == BucketDocs(cs, InnerPost, i)
      invariant post == BucketDocs(cs, Post, i)
    {
      var d := PrintCommentAt(cs, i);
      BucketDocsStep(cs, Pre, i);
      BucketDocsStep(cs, InnerPost, i);
      BucketDocsStep(cs, Post, i);
      match cs[i].position {
        case Pre => pre := pre + [d];
        case InnerPost => innerPost := innerPost + [d];
        case Post => post := post + [d];
        case OtherPosition =>
      }
      i := i + 1;
    }
  }

  /** Taking one more comment appends its doc to the bucket of its position and to no other. */
  lemma BucketDocsStep(cs: seq<Comment>, pos: Position, n: nat)
    requires n < |cs|
    ensures BucketDocs(cs, pos, n + 1)
            == BucketDocs(cs, pos, n) + (if cs[n].position == pos then [PrintCommentAt(cs, n)] else [])
  {
  }

  /** Every comment with one of the three positions is in its bucket; no comment is in any other. */
  lemma BucketsPartition(cs: seq<Comment>, i: nat)
    requires i < |cs|
    ensures cs[i].position != OtherPosition ==> i in Bucket(cs, cs[i].position, |cs|)
    ensures forall p :: p != cs[i].position ==> i !in Bucket(cs, p, |cs|)
  {
  }

  /** The number of comments at position `pos` among the first `n`. */
  function CountAt(cs: seq<Comment>, pos: Position, n: nat): nat
    requires n <= |cs|
  {
    if n == 0 then 0 else CountAt(cs, pos, n - 1) + (if cs[n - 1].position == pos then 1 else 0)
  }

  lemma {:induction false} BucketCount(cs: seq<Comment>, pos: Position, n: nat)
    requires n <= |cs|
    ensures |Bucket(cs, pos, n)| == CountAt(cs, pos, n)
  {
    if n > 0 {
      BucketCount(cs, pos, n - 1);
    }
  }

  lemma {:induction false} CountSum(cs: seq<Comment>, n: nat)
    requires n <= |cs|
    ensures CountAt(cs, Pre, n) + CountAt(cs, InnerPost, n) + CountAt(cs, Post, n) + CountAt(cs, OtherPosition, n) == n
  {
    if n > 0 {
      CountSum(cs, n - 1);
    }
  }

  /** The buckets together hold every comment once, except those at another position. */
  lemma {:induction false} BucketSizes(cs: seq<Comment>, n: nat)
    requires n <= |cs|
    ensures |Bucket(cs, Pre, n)| + |Bucket(cs, InnerPost, n)| + |Bucket(cs, Post, n)|
            == n - |Bucket(cs, OtherPosition, n)|
  {
    BucketCount(cs, Pre, n);
    BucketCount(cs, InnerPost, n);
    BucketCount(cs, Post, n);
    BucketCount(cs, OtherPosition, n);
    CountSum(cs, n);
  }

  /**
   * The docs in each bucket are the printed comments of that position, in
   * source order, each printed against its previous sibling in the full list.
   */
  lemma CommentsDocsOrder(cs: seq<Comment>, pos: Position, k: nat)
    requires pos != OtherPosition
    requires k < |Bucket(cs, pos, |cs|)|
    ensures var docs := CommentsDocs(cs);
            var bucket := if pos == Pre then docs.0 else if pos == InnerPost then docs.1 else docs.2;
            |bucket| == |Bucket(cs, pos, |cs|)| &&
            bucket[k] == PrintCommentAt(cs, Bucket(cs, pos, |cs|)[k])
  {
  }

  /** A node whose comments all have one position has the other two buckets empty. */
  lemma {:induction false} OnePositionBuckets(cs: seq<Comment>, pos: Position, n: nat)
    requires n <= |cs|
    requires forall i :: 0 <= i < |cs| ==> cs[i].position == pos
    ensures forall p :: p != pos ==> Bucket(cs, p, n) == []
  {
    if n > 0 {
      OnePositionBuckets(cs, pos, n - 1);
    }
  }
}
