/** A template expanded piece by piece, between its slashes, against the same template expanded whole. */
module PathPieces {
  import opened Options
  import opened Text
  import opened PathTemplate

  /** `template.split("/")`, on items. */
  function Pieces(t: Template): (r: seq<Template>)
    ensures |r| >= 1 && forall p | p in r :: Chr('/') !in p
  {
    if t == [] then [[]]
    else
      var rest := Pieces(t[1..]);
      if t[0] == Chr('/') then [[]] + rest else [[t[0]] + rest[0]] + rest[1..]
  }

  predicate SlashFree(ctx: Context) {
    forall tok | tok in ctx :: '/' !in ctx[tok]
  }

  /** The segments of every piece in turn. */
  function PieceSegments(pieces: seq<Template>, ctx: Context): seq<string> {
    if pieces == [] then [] else
      (match Expand(pieces[0], ctx, true) case Ok(path) => Segments(path) case _ => [])
      + PieceSegments(pieces[1..], ctx)
  }

  lemma {:induction false} PiecesOf(t: Template, i: nat)
    requires i < |t| && t[i] == Chr('/') && Chr('/') !in t[..i]
    ensures Pieces(t) == [t[..i]] + Pieces(t[i + 1..])
  {
    if i > 0 {
      assert t[1..][..i - 1] == t[..i][1..] && t[1..][i..] == t[i + 1..];
      PiecesOf(t[1..], i - 1);
      assert [t[0]] + t[..i][1..] == t[..i];
      assert ([t[1..i]] + Pieces(t[i + 1..]))[1..] == Pieces(t[i + 1..]);
    }
  }

  lemma {:induction false} PiecesWhole(t: Template)
    requires Chr('/') !in t
    ensures Pieces(t) == [t]
  {
    if t != [] {
      PiecesWhole(t[1..]);
      assert t == [t[0]] + t[1..];
    }
  }

  lemma {:induction false} PiecesCovered(t: Template, ctx: Context)
    requires Covers(ctx, t)
    ensures forall p | p in Pieces(t) :: Covers(ctx, p)
  {
    if t != [] {
      PiecesCovered(t[1..], ctx);
      assert Covers(ctx, Pieces(t[1..])[0]);
    }
  }

  /** An item no optional group continues with: a literal that is no bracket. */
  predicate Ends(item: Item) {
    item.Chr? && item.c !in {'(', ')', '[', ']'}
  }

  /** An optional group never reaches across a slash, or across a space it does not start with. */
  lemma GroupStops(a: Template, rest: Template)
    requires a != [] && rest != [] && Ends(rest[0])
    ensures OptionalAt(a + rest) == OptionalAt(a)
  {
    GroupLengthStops(a + rest, a);
    assert (a + rest)[1..] == a[1..] + rest;
    GroupLengthStops((a + rest)[1..], a[1..]);
  }

  lemma GroupLengthStops(t: Template, a: Template)
    requires |a| < |t| && t[..|a|] == a && Ends(t[|a|])
    ensures GroupLength(t) == GroupLength(a)
    ensures GroupLength(t) > 0 ==> GroupToken(t) == GroupToken(a)
  {
    assert forall i | 0 <= i < |a| :: t[i] == a[i];
  }

  /** Before such an item the filled-in text can be cut. */
  lemma {:induction false} FillAppend(a: Template, rest: Template, ctx: Context)
    requires Covers(ctx, a + rest) && Covers(ctx, a) && Covers(ctx, rest) && rest != [] && Ends(rest[0])
    ensures Fill(a + rest, ctx) == Fill(a, ctx) + Fill(rest, ctx)
    decreases |a|
  {
    if a == [] {
      assert a + rest == rest;
    } else {
      GroupStops(a, rest);
      var n := StepLength(a, ctx);
      TailOf(a, rest, n);
      FillAppend(a[n..], rest, ctx);
      FillAppendStep(a, rest, ctx);
    }
  }

  function StepLength(t: Template, ctx: Context): (n: nat)
    requires t != []
    ensures 0 < n <= |t|
  {
    if Drops(t, ctx) then OptionalAt(t).value.1 else 1
  }

  lemma FillAppendStep(a: Template, rest: Template, ctx: Context)
    requires Covers(ctx, a + rest) && Covers(ctx, a) && Covers(ctx, rest) && a != []
    requires OptionalAt(a + rest) == OptionalAt(a)
    requires var n := StepLength(a, ctx); Covers(ctx, a[n..] + rest) && Fill(a[n..] + rest, ctx) == Fill(a[n..], ctx) + Fill(rest, ctx)
    ensures Fill(a + rest, ctx) == Fill(a, ctx) + Fill(rest, ctx)
  {
    var n := StepLength(a, ctx);
    SameStep(a, rest, ctx);
    var head := if Drops(a, ctx) then "" else Emit(a[0], ctx);
    TailOf(a, rest, n);
    FillStep(a + rest, ctx, n, head);
    FillStep(a, ctx, n, head);
    Associates(head, Fill(a[n..], ctx), Fill(rest, ctx));
  }

  lemma Associates(x: string, y: string, z: string)
    ensures x + (y + z) == (x + y) + z
  {
  }

  lemma TailOf(a: Template, rest: Template, n: nat)
    requires 0 < n <= |a|
    ensures (a + rest)[n..] == a[n..] + rest && (a + rest)[0] == a[0]
  {
  }

  lemma SameStep(a: Template, rest: Template, ctx: Context)
    requires a != [] && OptionalAt(a + rest) == OptionalAt(a)
    ensures Drops(a + rest, ctx) == Drops(a, ctx)
    ensures StepLength(a + rest, ctx) == StepLength(a, ctx)
  {
  }

  lemma FillStep(t: Template, ctx: Context, n: nat, head: string)
    requires Covers(ctx, t) && t != [] && n == StepLength(t, ctx)
    requires head == if Drops(t, ctx) then "" else Emit(t[0], ctx)
    ensures Fill(t, ctx) == head + Fill(t[n..], ctx)
  {
  }

  lemma SlashFill(rest: Template, ctx: Context)
    requires Covers(ctx, rest) && Covers(ctx, [Chr('/')] + rest)
    ensures Fill([Chr('/')] + rest, ctx) == "/" + Fill(rest, ctx)
  {
    var t := [Chr('/')] + rest;
    assert t[1..] == rest && !Drops(t, ctx);
  }

  lemma FillSplits(a: Template, rest: Template, ctx: Context)
    requires Covers(ctx, a + [Chr('/')] + rest) && Covers(ctx, a) && Covers(ctx, rest)
    ensures Fill(a + [Chr('/')] + rest, ctx) == Fill(a, ctx) + "/" + Fill(rest, ctx)
  {
    var tail := [Chr('/')] + rest;
    assert a + [Chr('/')] + rest == a + tail;
    FillAppend(a, tail, ctx);
    SlashFill(rest, ctx);
    Associates(Fill(a, ctx), "/", Fill(rest, ctx));
  }

  /** A space, an opening bracket, an optional token and the closing bracket. */
  function Wrapped(tok: Token, round: bool): Template {
    if round then [Chr(' '), Chr('('), Tok(tok, true), Chr(')')] else [Chr(' '), Chr('['), Tok(tok, true), Chr(']')]
  }

  /** What a wrapped token shows. */
  function WrappedText(value: string, round: bool): string {
    if value == "" then "" else (if round then " (" else " [") + value + (if round then ")" else "]")
  }

  lemma WrappedFill(tok: Token, round: bool, post: Template, ctx: Context)
    requires Covers(ctx, post) && tok in ctx && Covers(ctx, Wrapped(tok, round) + post)
    ensures Fill(Wrapped(tok, round) + post, ctx) == WrappedText(ctx[tok], round) + Fill(post, ctx)
  {
    var t := Wrapped(tok, round) + post;
    assert t[4..] == post && t[1..][0] == t[1] && t[1..][1] == t[2] && t[1..][2] == t[3];
    assert OptionalAt(t) == Some((tok, 4));
    if ctx[tok] != "" { WrappedShown(t, tok, round, ctx); }
  }

  lemma WrappedShown(t: Template, tok: Token, round: bool, ctx: Context)
    requires Covers(ctx, t) && |t| >= 4 && t[..4] == Wrapped(tok, round) && tok in ctx && ctx[tok] != ""
    ensures Fill(t, ctx) == WrappedText(ctx[tok], round) + Fill(t[4..], ctx)
  {
    var open, close := if round then "(" else "[", if round then ")" else "]";
    WrappedItem(t, tok, round, ctx, 0, " ");
    WrappedItem(t, tok, round, ctx, 1, open);
    WrappedItem(t, tok, round, ctx, 2, ctx[tok]);
    WrappedItem(t, tok, round, ctx, 3, close);
    assert t[0..] == t;
    FourParts(" ", open, ctx[tok], close, Fill(t[4..], ctx));
    assert " " + open == if round then " (" else " [";
  }

  /** With a value none of the four items is dropped. */
  lemma WrappedItem(t: Template, tok: Token, round: bool, ctx: Context, i: nat, text: string)
    requires Covers(ctx, t) && |t| >= 4 && t[..4] == Wrapped(tok, round) && tok in ctx && ctx[tok] != "" && i < 4
    requires text == Emit(Wrapped(tok, round)[i], ctx)
    ensures Fill(t[i..], ctx) == text + Fill(t[i + 1..], ctx)
  {
    assert forall j | 0 <= j < 4 :: t[j] == Wrapped(tok, round)[j];
    assert forall j | 0 <= j < |t| - i :: t[i..][j] == t[i + j];
    assert !Drops(t[i..], ctx);
    assert t[i..][1..] == t[i + 1..];
  }

  lemma FourParts(a: string, b: string, c: string, d: string, e: string)
    ensures a + (b + (c + (d + e))) == ((a + b) + c + d) + e
  {
  }

  /** An optional token in brackets after a space vanishes with both when its value is empty, and leaves the
      rest of the text alone; with a value it shows as written. */
  lemma WrappedOptional(pre: Template, tok: Token, round: bool, post: Template, ctx: Context)
    requires Covers(ctx, pre) && Covers(ctx, post) && tok in ctx && Covers(ctx, pre + (Wrapped(tok, round) + post))
    ensures Fill(pre + (Wrapped(tok, round) + post), ctx) == Fill(pre, ctx) + (WrappedText(ctx[tok], round) + Fill(post, ctx))
  {
    var rest := Wrapped(tok, round) + post;
    assert rest[0] == Chr(' ');
    assert Covers(ctx, rest) by { assert forall i | 0 <= i < |rest| :: (pre + rest)[|pre| + i] == rest[i]; }
    FillAppend(pre, rest, ctx);
    WrappedFill(tok, round, post, ctx);
  }

  /** An optional token after a space, not in brackets, vanishes with the space when its value is empty; with a value
      both show. */
  lemma BareOptional(pre: Template, tok: Token, post: Template, ctx: Context)
    requires tok in ctx && Covers(ctx, pre) && Covers(ctx, post)
    requires Covers(ctx, pre + ([Chr(' '), Tok(tok, true)] + post))
    ensures Fill(pre + ([Chr(' '), Tok(tok, true)] + post), ctx)
      == Fill(pre, ctx) + ((if ctx[tok] == "" then "" else " " + ctx[tok]) + Fill(post, ctx))
  {
    var rest := [Chr(' '), Tok(tok, true)] + post;
    assert rest[0] == Chr(' ');
    assert Covers(ctx, rest) by { assert forall i | 0 <= i < |rest| :: (pre + rest)[|pre| + i] == rest[i]; }
    FillAppend(pre, rest, ctx);
    SpacedFill(tok, post, ctx);
  }

  lemma SpacedFill(tok: Token, post: Template, ctx: Context)
    requires tok in ctx && Covers(ctx, post) && Covers(ctx, [Chr(' '), Tok(tok, true)] + post)
    ensures Fill([Chr(' '), Tok(tok, true)] + post, ctx) == (if ctx[tok] == "" then "" else " " + ctx[tok]) + Fill(post, ctx)
  {
    var rest := [Chr(' '), Tok(tok, true)] + post;
    assert rest[1..][0] == Tok(tok, true) && rest[1..][1..] == post && rest[2..] == post;
    assert OptionalAt(rest) == Some((tok, 2)) && OptionalAt(rest[1..]) == Some((tok, 1));
    if ctx[tok] == "" {
      assert "" + Fill(post, ctx) == Fill(post, ctx);
    } else {
      assert Fill(rest, ctx) == " " + Fill(rest[1..], ctx);
      assert Fill(rest[1..], ctx) == ctx[tok] + Fill(post, ctx);
      Associates(" ", ctx[tok], Fill(post, ctx));
    }
  }

  lemma {:induction false} FillHasNoSlash(t: Template, ctx: Context)
    requires Covers(ctx, t) && Chr('/') !in t && SlashFree(ctx)
    ensures '/' !in Fill(t, ctx)
    decreases |t|
  {
    if t != [] {
      FillHasNoSlash(t[if Drops(t, ctx) then OptionalAt(t).value.1 else 1..], ctx);
      assert t[0] in t;
    }
  }

  lemma FirstSlash(t: Template) returns (i: nat)
    requires Chr('/') in t
    ensures i < |t| && t[i] == Chr('/') && Chr('/') !in t[..i]
  {
    i := 0;
    while t[i] != Chr('/')
      invariant i < |t| && Chr('/') !in t[..i] && Chr('/') in t[i..]
      decreases |t| - i
    {
      assert t[..i + 1] == t[..i] + [t[i]] && t[i..] == [t[i]] + t[i + 1..];
      i := i + 1;
    }
  }

  /** The filled-in text has the segments of every piece in turn. */
  lemma {:induction false} FilledPieces(t: Template, ctx: Context)
    requires Covers(ctx, t)
    ensures Segments(Fill(t, ctx)) == PieceSegments(Pieces(t), ctx)
    decreases |t|
  {
    if Chr('/') in t {
      var i := FirstSlash(t);
      var a, rest := t[..i], t[i + 1..];
      assert t == a + [Chr('/')] + rest;
      PiecesOf(t, i);
      FilledPieces(rest, ctx);
      FillSplits(a, rest, ctx);
      SegmentsOfPair(Fill(a, ctx), Fill(rest, ctx));
      OnePieceMore(a, Pieces(rest), ctx);
    } else {
      PiecesWhole(t);
      OnePieceMore(t, [], ctx);
      assert [t] + [] == [t];
    }
  }

  /** Whole or piece by piece, the expansion has the same segments. */
  lemma PiecewiseAgrees(t: Template, ctx: Context)
    requires Covers(ctx, t)
    ensures Expand(t, ctx, true).Ok?
    ensures Segments(Expand(t, ctx, true).path) == PieceSegments(Pieces(t), ctx)
  {
    ExpandSegments(t, ctx, true);
    FilledPieces(t, ctx);
  }

  lemma OnePieceMore(a: Template, pieces: seq<Template>, ctx: Context)
    requires Covers(ctx, a)
    ensures PieceSegments([a] + pieces, ctx) == Segments(Fill(a, ctx)) + PieceSegments(pieces, ctx)
  {
    ExpandSegments(a, ctx, true);
    assert ([a] + pieces)[1..] == pieces;
  }

  /** The filled-in text has one part for every piece of the template, whatever the values. */
  lemma {:induction false} FillLevels(t: Template, ctx: Context)
    requires Covers(ctx, t) && SlashFree(ctx)
    ensures |Split(Fill(t, ctx), '/')| == |Pieces(t)|
    decreases |t|
  {
    if Chr('/') in t {
      var i := FirstSlash(t);
      var a, rest := t[..i], t[i + 1..];
      assert t == a + [Chr('/')] + rest;
      PiecesOf(t, i);
      FillLevels(rest, ctx);
      FillSplits(a, rest, ctx);
      FillHasNoSlash(a, ctx);
      SplitWhole(Fill(a, ctx), '/');
      assert "/" == ['/'];
      SplitJoinedPair(Fill(a, ctx), Fill(rest, ctx), '/');
    } else {
      PiecesWhole(t);
      FillHasNoSlash(t, ctx);
      SplitWhole(Fill(t, ctx), '/');
    }
  }

  lemma {:induction false} JoinedSegmentsSplit(parts: seq<string>)
    requires AllSegments(parts)
    ensures |Split(Join(parts, '/'), '/')| == if parts == [] then 1 else |parts|
  {
    if parts != [] {
      SplitWhole(parts[0], '/');
      if |parts| > 1 {
        JoinedSegmentsSplit(parts[1..]);
        SplitJoinedPair(parts[0], Join(parts[1..], '/'), '/');
      }
    }
  }

  /** No metadata value adds a path level: a rendered path has at most as many parts as the template, and
      exactly as many when no optional token was dropped. */
  lemma NoLevelAdded(t: Template, ctx: Context, allowEmpty: bool)
    requires Covers(ctx, t) && SlashFree(ctx) && Expand(t, ctx, allowEmpty).Ok?
    ensures var path := Expand(t, ctx, allowEmpty).path;
      && |Split(path, '/')| <= |Pieces(t)|
      && (!AnyDropped(t, ctx) ==> |Split(path, '/')| == |Pieces(t)|)
  {
    FillLevels(t, ctx);
    if AnyDropped(t, ctx) {
      SegmentsAreSegments(Fill(t, ctx));
      JoinedSegmentsSplit(Segments(Fill(t, ctx)));
    }
  }
}
