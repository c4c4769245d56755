/** `compute_outputs`: one output path for every track that should be transcoded. */
module TrackOutputs {
  import opened Options
  import opened Text
  import opened PathSanitize
  import opened PathTemplate
  import opened PathValidation
  import opened PathPieces
  import opened TrackPaths
  import opened CustomNames

  datatype Refusal = TokenEmpty | SegmentEmpty | BadTemplate
  datatype PathResult = Path(path: string) | Bad(why: Refusal)
  datatype Outputs = Resolved(paths: seq<string>) | Refused(index: nat, why: Refusal)

  predicate EpisodeRequired(job: Job, track: Track, session: Session) {
    if track.role.Some? then track.role.value == EpisodeRole
    else (if job.media.Some? then job.media.value else session.media) == Tv
  }

  /** The tokens used without `?` that have no value. */
  function Missing(t: Template, ctx: Context): set<Token> {
    set tok | tok in RequiredTokens(t) && Lacks(ctx, tok)
  }

  /** Only an episode token may be missing, and only for a track that needs no episode. */
  predicate MayBeMissing(t: Template, ctx: Context, strict: bool) {
    forall tok | tok in Missing(t, ctx) :: tok in EPISODE_TOKENS && !strict
  }

  function Suffixed(segments: seq<string>, track: string): seq<string>
    requires segments != []
  {
    segments[..|segments| - 1] + [WithTrackSuffix(segments[|segments| - 1], track)]
  }

  /** The path of one track; `strict` says that its episode tokens have to resolve. */
  function TrackPath(t: Template, ctx: Context, strict: bool): PathResult
    requires PathTemplate.Token.Track in ctx
  {
    if !MayBeMissing(t, ctx, strict) then Bad(TokenEmpty)
    else if Missing(t, ctx) == {} then
      (match Expand(t, ctx, false) case Ok(path) => Path(path) case _ => Bad(BadTemplate))
    else if !Covers(ctx, t) then Bad(BadTemplate)
    else
      PiecesCovered(t, ctx);
      RenderedSegments(t, ctx);
      var segments := RenderPieces(Pieces(t), ctx);
      if "" in segments then Bad(SegmentEmpty)
      else Path(Join(if PathTemplate.Token.Track in Referenced(t) then segments else Suffixed(segments, ctx[PathTemplate.Token.Track]), '/'))
  }

  lemma {:induction false} GapRendered(pieces: seq<Template>, ctx: Context, i: nat)
    requires forall p | p in pieces :: Covers(ctx, p)
    requires i < |pieces| && EpisodeGap(pieces[i], ctx)
    ensures RenderPieces(pieces, ctx) != []
  {
    if i > 0 { GapRendered(pieces[1..], ctx, i - 1); }
  }

  /** A template with a missing token renders to at least one segment, so there is a last one to suffix. */
  lemma RenderedSegments(t: Template, ctx: Context)
    requires Covers(ctx, t) && Missing(t, ctx) != {} && Missing(t, ctx) <= EPISODE_TOKENS
    requires forall p | p in Pieces(t) :: Covers(ctx, p)
    ensures RenderPieces(Pieces(t), ctx) != []
  {
    var tok :| tok in Missing(t, ctx);
    assert tok in Referenced(t);
    PiecesReferenced(t);
    var p :| p in Pieces(t) && tok in Referenced(p);
    var i :| 0 <= i < |Pieces(t)| && Pieces(t)[i] == p;
    GapRendered(Pieces(t), ctx, i);
  }

  /** What the template gives a track. */
  function Templated(job: Job, track: Track, session: Session): PathResult {
    TrackPath(session.template, BuildContext(job, track, session.preset), EpisodeRequired(job, track, session))
  }

  /** A custom file name replaces the last component. */
  function ForTrack(job: Job, track: Track, session: Session): PathResult {
    match Templated(job, track, session)
    case Path(path) => Path(if track.custom != "" then Renamed(path, track.custom) else path)
    case bad => bad
  }

  predicate Relevant(track: Track, media: Media) {
    && !track.excluded
    && (match media
        case Movie => track.kind.VideoTitle?
        case Tv => track.kind.VideoTitle?
        case Music => track.kind.AudioTrack?
        case Data => track.kind.DataDump? || track.kind.DiscBackup? || track.kind.VideoTitle?
        case Iso => track.kind.DataDump? || track.kind.DiscBackup? || track.kind.VideoTitle?)
  }

  function Candidates(tracks: seq<Track>, media: Media): seq<Track> {
    if tracks == [] then []
    else (if Relevant(tracks[0], media) then [tracks[0]] else []) + Candidates(tracks[1..], media)
  }

  /** How each track fares. */
  type Fares = Track -> PathResult

  predicate FirstRefused(fares: Fares, picked: seq<Track>, i: int, index: nat, why: Refusal) {
    && 0 <= i < |picked| && picked[i].index == index && fares(picked[i]) == Bad(why)
    && forall j | 0 <= j < i :: fares(picked[j]).Path?
  }

  predicate SomeRefused(fares: Fares, picked: seq<Track>, index: nat, why: Refusal) {
    exists i | 0 <= i < |picked| :: FirstRefused(fares, picked, i, index, why)
  }

  predicate AllResolved(fares: Fares, picked: seq<Track>, paths: seq<string>) {
    |paths| == |picked| && forall i | 0 <= i < |picked| :: fares(picked[i]) == Path(paths[i])
  }

  /** Every relevant track gets its own path, in order; or the first track that has none is reported. */
  method ComputeOutputs(job: Job, tracks: seq<Track>, session: Session) returns (r: Outputs)
    ensures r.Resolved? ==> AllResolved(t => ForTrack(job, t, session), Candidates(tracks, session.media), r.paths)
    ensures r.Refused? ==> SomeRefused(t => ForTrack(job, t, session), Candidates(tracks, session.media), r.index, r.why)
  {
    r := ResolveAll(t => ForTrack(job, t, session), Candidates(tracks, session.media));
  }

  /** The loop over the tracks. */
  method ResolveAll(fares: Fares, picked: seq<Track>) returns (r: Outputs)
    ensures r.Resolved? ==> AllResolved(fares, picked, r.paths)
    ensures r.Refused? ==> SomeRefused(fares, picked, r.index, r.why)
  {
    var paths: seq<string> := [];
    for i := 0 to |picked|
      invariant |paths| == i && forall j | 0 <= j < i :: fares(picked[j]) == Path(paths[j])
    {
      var one := fares(picked[i]);
      if one.Bad? {
        assert FirstRefused(fares, picked, i, picked[i].index, one.why);
        return Refused(picked[i].index, one.why);
      }
      paths := paths + [one.path];
    }
    return Resolved(paths);
  }

  // ----- what holds of every path ------------------------------------------------------------

  lemma {:induction false} JoinNonEmpty(parts: seq<string>)
    requires parts != [] && parts[0] != ""
    ensures Join(parts, '/') != ""
  {
  }

  /** No track is given an empty path, whatever its metadata. */
  lemma PathNonEmpty(t: Template, ctx: Context, strict: bool)
    requires PathTemplate.Token.Track in ctx && t != [] && TrackPath(t, ctx, strict).Path?
    ensures TrackPath(t, ctx, strict).path != ""
  {
    if Missing(t, ctx) == {} {
      forall tok | tok in RequiredTokens(t) ensures !Lacks(ctx, tok) {
        assert tok !in Missing(t, ctx);
      }
      ExpandOkCovers(t, ctx);
      ExpandNonEmpty(t, ctx);
    } else {
      PiecesCovered(t, ctx);
      RenderedSegments(t, ctx);
      var segments := RenderPieces(Pieces(t), ctx);
      assert segments[0] in segments && segments[|segments| - 1] in segments;
      JoinNonEmpty(segments);
      JoinNonEmpty(Suffixed(segments, ctx[PathTemplate.Token.Track]));
    }
  }

  lemma ExpandOkCovers(t: Template, ctx: Context)
    requires Expand(t, ctx, false).Ok?
    ensures Covers(ctx, t)
  {
  }

  lemma ExpandNonEmpty(t: Template, ctx: Context)
    requires Covers(ctx, t) && t != [] && Expand(t, ctx, false).Ok?
    requires forall tok | tok in RequiredTokens(t) :: tok in ctx && ctx[tok] != ""
    ensures Expand(t, ctx, false).path != ""
  {
    if !AnyDropped(t, ctx) {
      KeptIsNonEmpty(t, ctx);
    }
  }

  lemma {:induction false} JoinLevels(parts: seq<string>)
    requires forall p | p in parts :: '/' !in p
    ensures |Split(Join(parts, '/'), '/')| == if parts == [] then 1 else |parts|
  {
    if parts != [] { SplitJoin(parts, '/'); }
  }

  lemma PieceTextHasNoSlash(piece: Template, ctx: Context)
    requires Covers(ctx, piece) && Chr('/') !in piece && SlashFree(ctx)
    ensures |PieceText(piece, ctx)| <= 1 && (PieceText(piece, ctx) != [] ==> '/' !in PieceText(piece, ctx)[0])
  {
    ExpandHasNoSlash(piece, ctx);
    if EpisodeGap(piece, ctx) { TidyHasNoSlash(Expand(piece, ctx, true).path); }
  }

  lemma ExpandHasNoSlash(piece: Template, ctx: Context)
    requires Covers(ctx, piece) && Chr('/') !in piece && SlashFree(ctx)
    ensures Expand(piece, ctx, true).Ok? && '/' !in Expand(piece, ctx, true).path
  {
    FillHasNoSlash(piece, ctx);
    var text := Fill(piece, ctx);
    if AnyDropped(piece, ctx) {
      SplitWhole(text, '/');
      TrimHasNoSlash(text, SPACES);
      assert Kept([text]) == KeptOne(text) by { assert [text][1..] == []; }
    }
  }

  lemma {:induction false} RenderedHaveNoSlash(pieces: seq<Template>, ctx: Context)
    requires forall p | p in pieces :: Covers(ctx, p) && Chr('/') !in p
    requires SlashFree(ctx)
    ensures |RenderPieces(pieces, ctx)| <= |pieces|
    ensures forall s | s in RenderPieces(pieces, ctx) :: '/' !in s
  {
    if pieces != [] {
      assert pieces[0] in pieces;
      PieceTextHasNoSlash(pieces[0], ctx);
      RenderedHaveNoSlash(pieces[1..], ctx);
    }
  }

  lemma ExtensionHasNoSlash(name: string)
    requires '/' !in name
    ensures '/' !in Extension(name)
  {
    PartHasNoSlash(name, |name| - |Extension(name)|, |name|);
  }

  lemma SuffixHasNoSlash(name: string, track: string)
    requires '/' !in name && '/' !in track
    ensures '/' !in WithTrackSuffix(name, track)
  {
    PartHasNoSlash(name, 0, |name| - |SuffixExtension(name)|);
    assert '/' !in SuffixHead(name);
    ExtensionHasNoSlash(name);
    if name != "" { ExtensionHasNoSlash(name[..|name| - 1]); }
  }

  /** No metadata adds a path level: a track's path never has more parts than the template. */
  lemma TrackPathLevels(t: Template, ctx: Context, strict: bool)
    requires PathTemplate.Token.Track in ctx && SlashFree(ctx) && TrackPath(t, ctx, strict).Path?
    ensures |Split(TrackPath(t, ctx, strict).path, '/')| <= |Pieces(t)|
  {
    if Missing(t, ctx) == {} {
      ExpandOkCovers(t, ctx);
      NoLevelAdded(t, ctx, false);
    } else {
      PiecesCovered(t, ctx);
      RenderedSegments(t, ctx);
      RenderedHaveNoSlash(Pieces(t), ctx);
      SuffixedLevels(RenderPieces(Pieces(t), ctx), ctx[PathTemplate.Token.Track]);
    }
  }

  /** Same folders, the operator's name, the rendered extension. */
  predicate LastReplaced(plain: string, path: string, custom: string) {
    && Parts(path) == Front(Parts(plain)) + [CustomName(plain, custom)]
    && (Suffix(FileName(plain)) != "" ==> Suffix(FileName(path)) == Suffix(FileName(plain)))
  }

  /** Whatever the metadata and whatever file name the operator typed, a track's path is not empty and has no
      more levels than the template; the operator's name is the last one, under the folders and with the
      extension the template gave. */
  lemma TrackLevels(job: Job, track: Track, session: Session)
    requires PlainPreset(session.preset) && session.template != [] && ForTrack(job, track, session).Path?
    ensures var path, plain := ForTrack(job, track, session).path, Templated(job, track, session).path;
      && path != "" && |Parts(path)| <= |Pieces(session.template)|
      && (track.custom == "" ==> |Split(path, '/')| <= |Pieces(session.template)|)
      && (track.custom != "" ==> LastReplaced(plain, path, track.custom))
  {
    var t, ctx := session.template, BuildContext(job, track, session.preset);
    ContextSlashFree(job, track, session.preset);
    ContextTrack(job, track, session.preset);
    PathNonEmpty(t, ctx, EpisodeRequired(job, track, session));
    TrackPathLevels(t, ctx, EpisodeRequired(job, track, session));
    if track.custom != "" { RenamedKeepsFolders(Templated(job, track, session).path, track.custom); }
  }

  lemma SuffixedLevels(segments: seq<string>, track: string)
    requires segments != [] && '/' !in track && forall s | s in segments :: '/' !in s
    ensures |Split(Join(segments, '/'), '/')| == |segments|
    ensures |Split(Join(Suffixed(segments, track), '/'), '/')| == |segments|
  {
    JoinLevels(segments);
    SuffixHasNoSlash(segments[|segments| - 1], track);
    JoinLevels(Suffixed(segments, track));
  }

  // ----- the validator against real metadata -----------------------------------------------------

  /** A slug and a container made of letters, digits and hyphens show something when they are not empty. */
  predicate ShownPreset(p: Option<Preset>) {
    p.Some? ==> (p.value.slug != "" ==> Visible(p.value.slug)) && (p.value.ext != "" ==> Visible(p.value.ext))
  }

  lemma SanitizedVisible(value: string)
    ensures Sanitize(value) != "" ==> Visible(Sanitize(value))
  {
    SanitizeSafe(value);
    SafeHasLetter(Sanitize(value));
    var s := Sanitize(value);
    if s != "" { assert s[0] in s && Ordinary(s[0]); }
  }

  lemma DigitFirstVisible(s: string)
    requires s != "" && IsDigit(s[0])
    ensures Visible(s)
  {
    assert s[0] in s;
  }

  lemma NumberVisible(n: nat, rest: string)
    ensures Visible(Pad2(n) + rest) && Visible(Decimal(n) + rest)
  {
    Pad2Number(n);
    DecimalNumber(n);
    assert Pad2(n)[0] in Pad2(n) && Decimal(n)[0] in Decimal(n);
    DigitFirstVisible(Pad2(n) + rest);
    DigitFirstVisible(Decimal(n) + rest);
  }

  lemma EpisodeVisible(track: Track)
    ensures EpisodeText(track) != "" ==> Visible(EpisodeText(track))
  {
    if track.episode.Some? {
      var n := track.episode.value;
      NumberVisible(n, "");
      assert Pad2(n) + "" == Pad2(n);
      if track.episodeEnd.Some? {
        NumberVisible(n, "-E" + Pad2(track.episodeEnd.value));
        assert Pad2(n) + ("-E" + Pad2(track.episodeEnd.value)) == Pad2(n) + "-E" + Pad2(track.episodeEnd.value);
      }
    }
  }

  lemma DurationVisible(seconds: nat)
    ensures DurationText(seconds) != "" ==> Visible(DurationText(seconds))
  {
    var rest := "h" + Pad2(seconds % 3600 / 60) + "m";
    NumberVisible(seconds / 3600, rest);
    assert Pad2(seconds / 3600) + rest == Pad2(seconds / 3600) + "h" + Pad2(seconds % 3600 / 60) + "m";
  }

  /** Every value of a render context is empty or shows something. */
  lemma ValueVisible(job: Job, track: Track, preset: Option<Preset>, tok: Token)
    requires ShownPreset(preset)
    ensures ValueOf(job, track, preset, tok) != "" ==> Visible(ValueOf(job, track, preset, tok))
  {
    match tok
    case Year =>
      if Either(track.year, job.year).Some? {
        NumberVisible(Either(track.year, job.year).value, "");
        assert Decimal(Either(track.year, job.year).value) + "" == Decimal(Either(track.year, job.year).value);
      }
    case Track => NumberVisible(track.index, ""); assert Pad2(track.index) + "" == Pad2(track.index);
    case Episode => EpisodeVisible(track);
    case Duration => DurationVisible(track.duration);
    case Title => SanitizedVisible(if track.title != "" then track.title else job.title);
    case Show => SanitizedVisible(job.title);
    case Season => SanitizedVisible(SeasonText(job, track));
    case Disc => SanitizedVisible(DiscText(job));
    case EpisodeTitle => SanitizedVisible(track.episodeName);
    case Artist => SanitizedVisible(job.artist);
    case Album => SanitizedVisible(job.album);
    case TrackTitle => SanitizedVisible(TrackTitleText(job, track));
    case _ =>
  }

  lemma AllowedKnown(media: Media)
    ensures Allowed(media) <= KNOWN
  {
  }

  /** A template that passed the save-time validator gives every track a non-empty path, whatever its
      metadata, as long as its required tokens have values. */
  lemma ValidatedTemplateResolves(job: Job, track: Track, session: Session)
    requires session.template != [] && ShownPreset(session.preset)
    requires Validate(session.template, session.media, session.preset.Some?).Ok?
    requires Missing(session.template, BuildContext(job, track, session.preset)) == {}
    ensures ForTrack(job, track, session).Path? && ForTrack(job, track, session).path != ""
  {
    var t, ctx := session.template, BuildContext(job, track, session.preset);
    AllowedKnown(session.media);
    assert Covers(ctx, t) by {
      assert forall i | 0 <= i < |t| && t[i].Tok? :: t[i].token in Referenced(t);
    }
    forall tok | tok in RequiredTokens(t) ensures tok in ctx && Visible(ctx[tok]) {
      assert tok !in Missing(t, ctx);
      ValueVisible(job, track, session.preset, tok);
    }
    AcceptedRenders(t, session.media, session.preset.Some?, ctx);
    if track.custom != "" { RenamedNonEmpty(Templated(job, track, session).path, track.custom); }
  }

  lemma RenamedNonEmpty(path: string, custom: string)
    ensures Renamed(path, custom) != ""
  {
    CustomNamePlain(path, custom);
  }

  // ----- bonus titles --------------------------------------------------------------------------

  lemma {:induction false} JoinLast(parts: seq<string>) returns (dirs: string)
    requires parts != []
    ensures Join(parts, '/') == dirs + parts[|parts| - 1]
  {
    if |parts| == 1 {
      dirs := "";
    } else {
      var rest := JoinLast(parts[1..]);
      dirs := parts[0] + ['/'] + rest;
    }
  }

  /** The path of a title with an empty episode token ends in its track index, when the template has no
      `{track}` of its own. */
  lemma BonusPathShowsTrack(t: Template, ctx: Context, strict: bool)
    requires PathTemplate.Token.Track in ctx && Digits(ctx[PathTemplate.Token.Track]) && PathTemplate.Token.Track !in Referenced(t)
    requires Missing(t, ctx) != {} && TrackPath(t, ctx, strict).Path?
    ensures TrackOf(TrackPath(t, ctx, strict).path) == ctx[PathTemplate.Token.Track]
  {
    PiecesCovered(t, ctx);
    RenderedSegments(t, ctx);
    var segments := RenderPieces(Pieces(t), ctx);
    var last := segments[|segments| - 1];
    assert last in segments;
    var dirs := JoinLast(Suffixed(segments, ctx[PathTemplate.Token.Track]));
    SuffixRoundTrip(dirs, last, ctx[PathTemplate.Token.Track]);
  }

  /** A job's track that renders with an episode token missing. */
  predicate Bonus(job: Job, track: Track, session: Session) {
    Missing(session.template, BuildContext(job, track, session.preset)) != {} && ForTrack(job, track, session).Path?
  }

  lemma BonusNumber(t: Template, ctx: Context, strict: bool, index: nat)
    requires PathTemplate.Token.Track in ctx && ctx[PathTemplate.Token.Track] == Pad2(index) && PathTemplate.Token.Track !in Referenced(t)
    requires Missing(t, ctx) != {} && TrackPath(t, ctx, strict).Path?
    ensures Digits(TrackOf(TrackPath(t, ctx, strict).path)) && Number(TrackOf(TrackPath(t, ctx, strict).path)) == index
  {
    Pad2Number(index);
    BonusPathShowsTrack(t, ctx, strict);
  }

  lemma ContextTrack(job: Job, track: Track, preset: Option<Preset>)
    ensures PathTemplate.Token.Track in BuildContext(job, track, preset)
    ensures BuildContext(job, track, preset)[PathTemplate.Token.Track] == Pad2(track.index)
  {
  }

  /** The template never gives two bonus titles with different track indices one path, even across two discs;
      only a custom file name can. */
  lemma BonusTitlesDistinct(session: Session, job: Job, track: Track, otherJob: Job, other: Track)
    requires PathTemplate.Token.Track !in Referenced(session.template) && track.index != other.index
    requires Bonus(job, track, session) && Bonus(otherJob, other, session)
    ensures Templated(job, track, session).path != Templated(otherJob, other, session).path
    ensures track.custom == "" && other.custom == "" ==> ForTrack(job, track, session).path != ForTrack(otherJob, other, session).path
  {
    ContextTrack(job, track, session.preset);
    ContextTrack(otherJob, other, session.preset);
    BonusNumber(session.template, BuildContext(job, track, session.preset), EpisodeRequired(job, track, session), track.index);
    BonusNumber(session.template, BuildContext(otherJob, other, session.preset), EpisodeRequired(otherJob, other, session), other.index);
  }

  // ----- which tracks, and which are refused -----------------------------------------------------------

  /** The tracks of a session of this kind: video titles for films and series, audio tracks for music, everything but
      audio tracks for data and images. */
  predicate OfKind(kind: Kind, media: Media) {
    if media == Music then kind == AudioTrack
    else kind == VideoTitle || ((media == Data || media == Iso) && kind != AudioTrack)
  }

  /** Every track that is not excluded and of the session's kind is given a path, as often as it is there. */
  lemma {:induction false} CandidatesExactly(tracks: seq<Track>, media: Media, t: Track)
    ensures multiset(Candidates(tracks, media))[t] == if !t.excluded && OfKind(t.kind, media) then multiset(tracks)[t] else 0
  {
    if tracks != [] {
      CandidatesExactly(tracks[1..], media, t);
      RelevantMeans(tracks[0], media);
      CountAppend([tracks[0]], tracks[1..], t);
      CountAppend(if Relevant(tracks[0], media) then [tracks[0]] else [], Candidates(tracks[1..], media), t);
      assert tracks == [tracks[0]] + tracks[1..];
      CountOne(tracks[0], t);
    }
  }

  lemma CountOne(u: Track, t: Track)
    ensures multiset([u])[t] == if u == t then 1 else 0
  {
  }

  lemma RelevantMeans(t: Track, media: Media)
    ensures Relevant(t, media) <==> !t.excluded && OfKind(t.kind, media)
  {
  }

  lemma CountAppend(a: seq<Track>, b: seq<Track>, t: Track)
    ensures multiset(a + b)[t] == multiset(a)[t] + multiset(b)[t]
  {
  }

  /** The tracks given a path keep the order they came in. */
  lemma {:induction false} CandidatesInOrder(a: seq<Track>, b: seq<Track>, media: Media)
    ensures Candidates(a + b, media) == Candidates(a, media) + Candidates(b, media)
  {
    if a == [] {
      assert a + b == b;
    } else {
      assert (a + b)[1..] == a[1..] + b;
      CandidatesInOrder(a[1..], b, media);
    }
  }

  /** An episode: said so, or, when nothing is said, on a series disc (by the session, when the job does not say). */
  predicate IsEpisode(job: Job, track: Track, session: Session) {
    match track.role
    case Some(role) => role == EpisodeRole
    case None => job.media == Some(Tv) || (job.media.None? && session.media == Tv)
  }

  predicate HasValue(ctx: Context, tok: Token) { tok in ctx && ctx[tok] != "" }

  /** A token that is used without a question mark somewhere in the template. */
  predicate Demanded(t: Template, tok: Token) {
    exists i | 0 <= i < |t| :: t[i] == Tok(tok, false)
  }

  predicate OfEpisode(tok: Token) { tok == Episode || tok == EpisodeTitle }

  /** A demanded token without a value refuses a track, unless it is one of the two episode tokens and the track is
      no episode. */
  lemma RefusedForToken(job: Job, track: Track, session: Session)
    ensures var ctx := BuildContext(job, track, session.preset);
      Templated(job, track, session) == Bad(TokenEmpty) <==>
        exists tok :: Demanded(session.template, tok) && !HasValue(ctx, tok) && !(OfEpisode(tok) && !IsEpisode(job, track, session))
  {
    var t, ctx := session.template, BuildContext(job, track, session.preset);
    forall tok ensures tok in Missing(t, ctx) <==> Demanded(t, tok) && !HasValue(ctx, tok) {
      MissingMeans(t, ctx, tok);
    }
    assert EpisodeRequired(job, track, session) == IsEpisode(job, track, session);
    assert forall tok :: tok in EPISODE_TOKENS <==> OfEpisode(tok);
    RefusedFirst(t, ctx, EpisodeRequired(job, track, session));
  }

  lemma MissingMeans(t: Template, ctx: Context, tok: Token)
    ensures tok in Missing(t, ctx) <==> Demanded(t, tok) && !HasValue(ctx, tok)
  {
    if Demanded(t, tok) {
      var i :| 0 <= i < |t| && t[i] == Tok(tok, false);
      assert t[i].Tok? && !t[i].optional && t[i].token == tok;
    }
  }

  lemma RefusedFirst(t: Template, ctx: Context, strict: bool)
    requires PathTemplate.Token.Track in ctx
    ensures TrackPath(t, ctx, strict) == Bad(TokenEmpty) <==> exists tok | tok in Missing(t, ctx) :: !(tok in EPISODE_TOKENS && !strict)
  {
  }

  /** A track whose demanded tokens all have values is given the whole template, filled in, when that needs no token
      the context does not know and leaves something; any other path is that of a title with an empty episode. */
  lemma FullTrackPath(job: Job, track: Track, session: Session)
    requires var ctx := BuildContext(job, track, session.preset);
      forall tok | Demanded(session.template, tok) :: HasValue(ctx, tok)
    ensures var ctx := BuildContext(job, track, session.preset);
      Templated(job, track, session) ==
        (match Expand(session.template, ctx, false) case Ok(path) => Path(path) case _ => Bad(BadTemplate))
  {
    var t, ctx := session.template, BuildContext(job, track, session.preset);
    forall tok ensures tok !in Missing(t, ctx) {
      MissingMeans(t, ctx, tok);
    }
  }
}
