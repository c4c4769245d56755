/** What a template that passed the save-time validator renders to. */
module PathValidation {
  import opened Options
  import opened Text
  import opened PathTemplate

  /** `after` shows at least what `before` shows: it drops no token that `before` keeps, and every value
      that is visible stays visible. */
  predicate Shows(t: Template, before: Context, after: Context)
    requires Covers(before, t) && Covers(after, t)
  {
    forall i | 0 <= i < |t| && t[i].Tok? ::
      && (Visible(before[t[i].token]) ==> Visible(after[t[i].token]))
      && (after[t[i].token] == "" ==> before[t[i].token] == "")
  }

  lemma VisibleAppend(a: string, b: string)
    ensures Visible(a + b) <==> Visible(a) || Visible(b)
  {
    assert forall c :: c in a + b <==> c in a || c in b;
  }

  /** A match whose token has a value is written out item by item. */
  lemma KeptMatchVisible(t: Template, ctx: Context)
    requires Covers(ctx, t) && OptionalAt(t).Some? && !Drops(t, ctx)
    requires Visible(Fill(t[OptionalAt(t).value.1..], ctx))
    ensures Visible(Fill(t, ctx))
  {
    var n := OptionalAt(t).value.1;
    if n >= 2 { assert t[1..][1..] == t[2..] && !Drops(t[1..], ctx); }
    if n >= 3 { assert t[2..][1..] == t[3..] && !Drops(t[2..], ctx); }
    if n == 4 { assert t[3..][1..] == t[4..] && !Drops(t[3..], ctx); VisibleAppend(Emit(t[3], ctx), Fill(t[4..], ctx)); }
    if n >= 3 { VisibleAppend(Emit(t[2], ctx), Fill(t[3..], ctx)); }
    if n >= 2 { VisibleAppend(Emit(t[1], ctx), Fill(t[2..], ctx)); }
    VisibleAppend(Emit(t[0], ctx), Fill(t[1..], ctx));
  }

  lemma {:induction false} ShowsMore(t: Template, before: Context, after: Context)
    requires Covers(before, t) && Covers(after, t) && Shows(t, before, after)
    requires Visible(Fill(t, before))
    ensures Visible(Fill(t, after))
    decreases |t|
  {
    if t != [] {
      if Drops(t, before) {
        var rest := t[OptionalAt(t).value.1..];
        ShowsMore(rest, before, after);
        if !Drops(t, after) { KeptMatchVisible(t, after); }
      } else {
        assert !Drops(t, after);
        VisibleAppend(Emit(t[0], before), Fill(t[1..], before));
        VisibleAppend(Emit(t[0], after), Fill(t[1..], after));
        if Visible(Fill(t[1..], before)) { ShowsMore(t[1..], before, after); }
      }
    }
  }

  lemma {:induction false} DropFound(t: Template, ctx: Context)
    requires Covers(ctx, t)
    ensures AnyDropped(t, ctx) <==> exists i | 0 <= i < |t| :: t[i].Tok? && t[i].optional && ctx[t[i].token] == ""
  {
    if t != [] {
      DropFound(t[1..], ctx);
      assert forall i | 0 < i < |t| :: t[i] == t[1..][i - 1];
      assert Drops(t, ctx) ==> exists i | 0 <= i < |t| :: t[i] == Tok(OptionalAt(t).value.0, true);
    }
  }

  lemma KeptIsNonEmpty(t: Template, ctx: Context)
    requires Covers(ctx, t) && t != [] && !AnyDropped(t, ctx)
    requires forall tok | tok in RequiredTokens(t) :: ctx[tok] != ""
    ensures Fill(t, ctx) != ""
  {
    DropFound(t, ctx);
    assert t[0].Tok? ==> t[0].token in RequiredTokens(t) || t[0].optional;
  }

  /** Every template the validator accepts, except the empty one, renders to a non-empty path for every
      context whose required tokens have something visible, whichever optional tokens are empty. */
  lemma AcceptedRenders(t: Template, media: Media, hasPreset: bool, ctx: Context)
    requires Validate(t, media, hasPreset).Ok? && t != []
    requires Covers(ctx, t) && forall tok | tok in RequiredTokens(t) :: tok in ctx && Visible(ctx[tok])
    ensures Expand(t, ctx, false).Ok? && Expand(t, ctx, false).path != ""
  {
    ExpandSegments(t, ctx, false);
    if !AnyDropped(t, ctx) {
      KeptIsNonEmpty(t, ctx);
    } else {
      DropFound(t, ctx);
      var bare := WithoutOptional(t, media);
      assert Covers(bare, t);
      DropFound(t, bare);
      ExpandSegments(t, bare, false);
      assert Shows(t, bare, ctx);
      ShowsMore(t, bare, ctx);
    }
  }

  /** Giving an empty optional token a value never turns a path into nothing. */
  lemma FillingInKeepsPath(t: Template, ctx: Context, tok: Token, value: string)
    requires Covers(ctx, t) && tok in OptionalTokens(t) && ctx[tok] == "" && value != ""
    requires Expand(t, ctx, false).Ok?
    ensures Expand(t, ctx, false).path != ""
    ensures Expand(t, ctx[tok := value], false).Ok? && Expand(t, ctx[tok := value], false).path != ""
  {
    var filled := ctx[tok := value];
    DropFound(t, ctx);
    ExpandSegments(t, ctx, false);
    SegmentsVisible(Fill(t, ctx));
    ShowsMore(t, ctx, filled);
    ExpandSegments(t, filled, false);
    SegmentsVisible(Fill(t, filled));
  }

  /** The validator accepts the empty template, which renders to nothing everywhere. */
  lemma EmptyTemplateAccepted(media: Media, hasPreset: bool, ctx: Context)
    ensures Validate([], media, hasPreset) == Ok("") && Expand([], ctx, false) == Ok("")
  {
  }

  // ----- non-empty is not enough, and exactly when it is --------------------------------------

  predicate RequiredNonEmpty(t: Template, ctx: Context) {
    Covers(ctx, t) && forall tok | tok in RequiredTokens(t) :: tok in ctx && ctx[tok] != ""
  }

  predicate RendersNonEmpty(t: Template, ctx: Context) {
    Expand(t, ctx, false).Ok? && Expand(t, ctx, false).path != ""
  }

  /** The context that shows least while every required token has a value. */
  function Barest(t: Template): Context {
    map tok | tok in Referenced(t) :: if tok in RequiredTokens(t) then " " else ""
  }

  /** The template's own text is enough to be seen, or it drops nothing. */
  predicate SelfSufficient(t: Template)
    requires Covers(Barest(t), t)
  {
    t != [] && (OptionalTokens(t) <= RequiredTokens(t) || Visible(Fill(t, Barest(t))))
  }

  lemma BarestCovers(t: Template)
    ensures RequiredNonEmpty(t, Barest(t))
  {
    assert RequiredTokens(t) <= Referenced(t);
  }

  lemma NothingOptionalDrops(t: Template, ctx: Context)
    requires RequiredNonEmpty(t, ctx) && OptionalTokens(t) <= RequiredTokens(t)
    ensures !AnyDropped(t, ctx)
  {
    DropFound(t, ctx);
    assert forall i | 0 <= i < |t| && t[i].Tok? && t[i].optional :: t[i].token in OptionalTokens(t);
  }

  lemma SelfSufficientRenders(t: Template, ctx: Context)
    requires RequiredNonEmpty(t, ctx) && Covers(Barest(t), t) && SelfSufficient(t)
    ensures RendersNonEmpty(t, ctx)
  {
    ExpandSegments(t, ctx, false);
    if !AnyDropped(t, ctx) {
      KeptIsNonEmpty(t, ctx);
    } else if OptionalTokens(t) <= RequiredTokens(t) {
      NothingOptionalDrops(t, ctx);
      assert false;
    } else {
      assert !Visible(" ") && !Visible("");
      assert forall i | 0 <= i < |t| && t[i].Tok? :: t[i].token in Referenced(t);
      assert Shows(t, Barest(t), ctx);
      ShowsMore(t, Barest(t), ctx);
      SegmentsVisible(Fill(t, ctx));
      SegmentsAreSegments(Fill(t, ctx));
      SegmentsJoin(Segments(Fill(t, ctx)));
    }
  }

  lemma BarestFails(t: Template)
    requires Covers(Barest(t), t) && !SelfSufficient(t)
    ensures !RendersNonEmpty(t, Barest(t))
  {
    if t != [] {
      DropFound(t, Barest(t));
      var tok :| tok in OptionalTokens(t) && tok !in RequiredTokens(t);
      var i :| 0 <= i < |t| && t[i].Tok? && t[i].optional && t[i].token == tok;
      assert tok in Referenced(t);
      ExpandSegments(t, Barest(t), false);
    }
  }

  /** A template renders to a non-empty path for every context whose required tokens are non-empty if and
      only if it is self-sufficient: no token is optional only, or a character of its own is seen. */
  lemma RendersForEveryContext(t: Template)
    ensures Covers(Barest(t), t)
    ensures (forall ctx | RequiredNonEmpty(t, ctx) :: RendersNonEmpty(t, ctx)) <==> SelfSufficient(t)
  {
    BarestCovers(t);
    if SelfSufficient(t) {
      forall ctx | RequiredNonEmpty(t, ctx) ensures RendersNonEmpty(t, ctx) {
        SelfSufficientRenders(t, ctx);
      }
    } else {
      BarestFails(t);
    }
  }

  /** An accepted template that is not self-sufficient: a blank title and no year leave nothing. */
  lemma BlankTitleFails()
    ensures var t := [Tok(Title, false), Tok(Year, true)];
      && Validate(t, Movie, false).Ok?
      && Expand(t, map[Title := " ", Year := ""], false) == EmptyPath
  {
    var t := [Tok(Title, false), Tok(Year, true)];
    var ctx: Context := map[Title := " ", Year := ""];
    PairOutcome(Title, Year, ctx);
    BlankTitleAccepted(t);
  }

  lemma BlankTitleAccepted(t: Template)
    requires t == [Tok(Title, false), Tok(Year, true)]
    ensures Validate(t, Movie, false).Ok?
  {
    var bare := WithoutOptional(t, Movie);
    PairTokens(t, Title, Year);
    SyntheticOk(t, Movie);
    SyntheticVisible(Movie, Title);
    PairOutcome(Title, Year, bare);
  }

  lemma PairTokens(t: Template, kept: Token, dropped: Token)
    requires t == [Tok(kept, false), Tok(dropped, true)]
    ensures OptionalTokens(t) == {dropped} && Referenced(t) == {kept, dropped}
  {
    assert t[0] == Tok(kept, false) && t[1] == Tok(dropped, true);
  }

  /** A kept token and a dropped one render to something exactly when the kept one is seen. */
  lemma PairOutcome(kept: Token, dropped: Token, ctx: Context)
    requires kept in ctx && dropped in ctx && ctx[dropped] == ""
    ensures var t := [Tok(kept, false), Tok(dropped, true)];
      if Visible(ctx[kept]) then Expand(t, ctx, false).Ok? else Expand(t, ctx, false) == EmptyPath
  {
    var t := [Tok(kept, false), Tok(dropped, true)];
    FillPair(kept, dropped, ctx);
    ExpandSegments(t, ctx, false);
    DropFound(t, ctx);
    assert t[1] == Tok(dropped, true);
    SegmentsVisible(ctx[kept]);
  }

  lemma FillPair(kept: Token, dropped: Token, ctx: Context)
    requires kept in ctx && dropped in ctx && ctx[dropped] == ""
    ensures Fill([Tok(kept, false), Tok(dropped, true)], ctx) == ctx[kept]
  {
    var t := [Tok(kept, false), Tok(dropped, true)];
    assert t[1..] == [Tok(dropped, true)] && t[1..][1..] == [];
    assert Fill(t[1..], ctx) == "";
  }

  lemma SyntheticOk(t: Template, media: Media)
    requires Covers(Synthetic(media), t)
    ensures Expand(t, Synthetic(media), false) == Ok(Fill(t, Synthetic(media)))
  {
    forall tok | tok in Synthetic(media) ensures Synthetic(media)[tok] != "" { SyntheticVisible(media, tok); }
    DropFound(t, Synthetic(media));
  }

  lemma FirstShows(s: string)
    requires s != "" && IsAlnum(s[0])
    ensures Visible(s)
  {
    assert s[0] in s;
  }

  lemma SyntheticVisible(media: Media, tok: Token)
    requires tok in Synthetic(media)
    ensures Visible(Synthetic(media)[tok]) && Synthetic(media)[tok] != ""
  {
    StandInShows(media, tok);
    FirstShows(StandIn(media, tok));
  }

  lemma StandInShows(media: Media, tok: Token)
    ensures StandIn(media, tok) != "" && IsAlnum(StandIn(media, tok)[0])
  {
  }

  // ----- what the validator accepts -------------------------------------------------------------------

  /** The media a token may be used for. */
  lemma TokenMedia(tok: Token)
    ensures forall m: Media :: tok in Allowed(m) <==>
      match tok
      case Title => m == Movie || m == Data || m == Iso
      case Year => m == Movie || m == Tv || m == Iso
      case Ext => m != Data
      case Slug => m == Movie || m == Tv || m == Music
      case Track => m == Movie || m == Tv || m == Music
      case Duration => m == Movie || m == Tv
      case Disc => m == Tv || m == Music
      case Show => m == Tv
      case Season => m == Tv
      case Episode => m == Tv
      case EpisodeTitle => m == Tv
      case Artist => m == Music
      case Album => m == Music
      case TrackTitle => m == Music
      case Other(_) => false
  {
  }

  predicate Uses(t: Template, tok: Token) {
    exists i | 0 <= i < |t| :: t[i].Tok? && t[i].token == tok
  }

  predicate UsesOptionally(t: Template, tok: Token) {
    exists i | 0 <= i < |t| :: t[i].Tok? && t[i].token == tok && t[i].optional
  }

  /** With every optional token of it dropped, something of the template is still seen. */
  predicate SeenWithout(t: Template, media: Media) {
    Covers(WithoutOptional(t, media), t) && Visible(Fill(t, WithoutOptional(t, media)))
  }

  /** All tokens are of the media, neither the extension nor the slug is optional, and both come with a preset (an
      ISO's extension without). */
  predicate WellUsed(t: Template, media: Media, hasPreset: bool) {
    && (forall i | 0 <= i < |t| && t[i].Tok? :: t[i].token in Allowed(media))
    && !UsesOptionally(t, Ext) && !UsesOptionally(t, Slug)
    && (hasPreset || (!Uses(t, Slug) && (media == Iso || !Uses(t, Ext))))
  }

  lemma WellUsedMeans(t: Template, media: Media, hasPreset: bool)
    ensures WellUsed(t, media, hasPreset) <==>
      && Referenced(t) <= Allowed(media) && OptionalTokens(t) * {Ext, Slug} == {}
      && (Slug in Referenced(t) ==> hasPreset) && (Ext in Referenced(t) ==> hasPreset || media == Iso)
  {
    assert Ext in OptionalTokens(t) <==> UsesOptionally(t, Ext);
    assert Slug in OptionalTokens(t) <==> UsesOptionally(t, Slug);
    assert Ext in Referenced(t) <==> Uses(t, Ext);
    assert Slug in Referenced(t) <==> Uses(t, Slug);
    assert OptionalTokens(t) * {Ext, Slug} == {} <==> Ext !in OptionalTokens(t) && Slug !in OptionalTokens(t) by {
      assert forall tok :: tok in OptionalTokens(t) * {Ext, Slug} <==> tok in OptionalTokens(t) && (tok == Ext || tok == Slug);
    }
    OnlyAllowed(t, media);
  }

  /** A template is accepted if and only if its tokens are well used and something of it is seen when its optional
      tokens, if it has any, are dropped. */
  lemma ValidateExactly(t: Template, media: Media, hasPreset: bool)
    ensures Validate(t, media, hasPreset).Ok? <==>
      WellUsed(t, media, hasPreset) && ((forall i | 0 <= i < |t| && t[i].Tok? :: !t[i].optional) || SeenWithout(t, media))
  {
    WellUsedMeans(t, media, hasPreset);
    OnlyAllowed(t, media);
    if WellUsed(t, media, hasPreset) {
      PreviewWorks(t, media);
      BareWorks(t, media);
    }
  }

  lemma OnlyAllowed(t: Template, media: Media)
    ensures Referenced(t) <= Allowed(media) <==> forall i | 0 <= i < |t| && t[i].Tok? :: t[i].token in Allowed(media)
    ensures OptionalTokens(t) == {} <==> forall i | 0 <= i < |t| && t[i].Tok? :: !t[i].optional
  {
    forall i | 0 <= i < |t| && t[i].Tok? ensures t[i].token in Referenced(t) && (t[i].optional ==> t[i].token in OptionalTokens(t)) {
    }
  }

  lemma PreviewWorks(t: Template, media: Media)
    requires Referenced(t) <= Allowed(media)
    ensures Expand(t, Synthetic(media), false).Ok?
  {
    assert forall i | 0 <= i < |t| && t[i].Tok? :: t[i].token in Referenced(t);
    DropFound(t, Synthetic(media));
  }

  lemma BareWorks(t: Template, media: Media)
    requires Referenced(t) <= Allowed(media)
    ensures Covers(WithoutOptional(t, media), t)
    ensures OptionalTokens(t) != {} ==> (Expand(t, WithoutOptional(t, media), false).Ok? <==> SeenWithout(t, media))
  {
    var bare := WithoutOptional(t, media);
    assert forall i | 0 <= i < |t| && t[i].Tok? :: t[i].token in Referenced(t);
    if OptionalTokens(t) != {} {
      var tok :| tok in OptionalTokens(t);
      DropFound(t, bare);
      ExpandSegments(t, bare, false);
      SegmentsVisible(Fill(t, bare));
      SegmentsAreSegments(Fill(t, bare));
      SegmentsJoin(Segments(Fill(t, bare)));
    }
  }

  /** A template without optional tokens is filled in item by item: every character as it is, every token by its
      value. */
  lemma {:induction false} PlainFill(t: Template, ctx: Context)
    requires Covers(ctx, t) && forall i | 0 <= i < |t| && t[i].Tok? :: !t[i].optional
    ensures Fill(t, ctx) == Written(t, ctx)
  {
    if t != [] {
      assert forall i | 0 <= i < |t| - 1 :: t[1..][i] == t[i + 1];
      PlainFill(t[1..], ctx);
      WrittenCons(t, ctx);
    }
  }

  function Value(item: Item, ctx: Context): string
    requires item.Tok? ==> item.token in ctx
  {
    match item case Chr(c) => [c] case Tok(tok, _) => ctx[tok]
  }

  function Written(t: Template, ctx: Context): string
    requires Covers(ctx, t)
  {
    if t == [] then "" else Written(t[..|t| - 1], ctx) + Value(t[|t| - 1], ctx)
  }

  lemma {:induction false} WrittenCons(t: Template, ctx: Context)
    requires Covers(ctx, t) && t != []
    ensures Written(t, ctx) == Value(t[0], ctx) + Written(t[1..], ctx)
    decreases |t|
  {
    if |t| == 1 {
      assert Written(t[..0], ctx) == "" && Value(t[0], ctx) + "" == Value(t[0], ctx);
    } else {
      var front := t[..|t| - 1];
      WrittenCons(front, ctx);
      assert front[1..] == t[1..][..|t| - 2] && t[1..][|t| - 2] == t[|t| - 1];
    }
  }
}
