/** Output path templates: literals, `{token}` and `{token?}`, expanded against a context of metadata.

    A template is the sequence of its literal characters and token references; the pattern that finds an
    optional token with its brackets and leading space is `OptionalAt`. */
module PathTemplate {
  import opened Options
  import opened Text

  datatype Token =
    | Title | Year | Show | Season | Disc | Track | Episode | EpisodeTitle | Duration | Artist | Album | TrackTitle
    | Slug | Ext | Other(name: string)

  datatype Item = Chr(c: char) | Tok(token: Token, optional: bool)

  type Template = seq<Item>
  type Context = map<Token, string>

  datatype Result = Ok(path: string) | UnknownToken(token: Token) | EmptyPath | Rejected

  function Referenced(t: Template): set<Token> {
    set i | 0 <= i < |t| && t[i].Tok? :: t[i].token
  }

  function OptionalTokens(t: Template): set<Token> {
    set i | 0 <= i < |t| && t[i].Tok? && t[i].optional :: t[i].token
  }

  function RequiredTokens(t: Template): set<Token> {
    set i | 0 <= i < |t| && t[i].Tok? && !t[i].optional :: t[i].token
  }

  // ----- expansion ---------------------------------------------------------------------------

  /** How many items an optional token at the front takes, with a () or [] pair around only it; 0 if none. */
  function GroupLength(t: Template): nat
    ensures GroupLength(t) <= |t|
  {
    if |t| >= 3 && t[1].Tok? && t[1].optional && ((t[0] == Chr('(') && t[2] == Chr(')')) || (t[0] == Chr('[') && t[2] == Chr(']')))
    then 3
    else if |t| >= 1 && t[0].Tok? && t[0].optional then 1
    else 0
  }

  function GroupToken(t: Template): Token
    requires GroupLength(t) > 0
  {
    if GroupLength(t) == 3 then t[1].token else t[0].token
  }

  /** The same with one leading space, when there is one: the token and how many items the match takes. */
  function OptionalAt(t: Template): (m: Option<(Token, nat)>)
    ensures m.Some? ==> 0 < m.value.1 <= |t|
  {
    if t != [] && t[0] == Chr(' ') && GroupLength(t[1..]) > 0 then Some((GroupToken(t[1..]), 1 + GroupLength(t[1..])))
    else if GroupLength(t) > 0 then Some((GroupToken(t), GroupLength(t)))
    else None
  }

  predicate Drops(t: Template, ctx: Context) {
    OptionalAt(t).Some? && OptionalAt(t).value.0 in ctx && ctx[OptionalAt(t).value.0] == ""
  }

  predicate Covers(ctx: Context, t: Template) {
    forall i | 0 <= i < |t| && t[i].Tok? :: t[i].token in ctx
  }

  function Emit(item: Item, ctx: Context): string
    requires item.Tok? ==> item.token in ctx
  {
    if item.Chr? then [item.c] else ctx[item.token]
  }

  /** The text after dropping empty optional tokens and filling in the rest. */
  function Fill(t: Template, ctx: Context): string
    requires Covers(ctx, t)
    decreases |t|
  {
    if t == [] then ""
    else if Drops(t, ctx) then Fill(t[OptionalAt(t).value.1..], ctx)
    else Emit(t[0], ctx) + Fill(t[1..], ctx)
  }

  predicate AnyDropped(t: Template, ctx: Context)
    decreases |t|
  {
    t != [] && (Drops(t, ctx) || AnyDropped(t[1..], ctx))
  }

  predicate IsSegment(p: string) {
    p != "" && '/' !in p && Trim(p, SPACES) == p
  }

  predicate AllSegments(parts: seq<string>) {
    parts == [] || (IsSegment(parts[0]) && AllSegments(parts[1..]))
  }

  /** Path segments as they matter on disk: trimmed of white space, empty ones gone. */
  function Segments(s: string): (r: seq<string>) {
    Kept(Split(s, '/'))
  }

  function Kept(parts: seq<string>): (r: seq<string>)
    ensures |r| <= |parts|
  {
    if parts == [] then [] else KeptOne(parts[0]) + Kept(parts[1..])
  }

  function KeptOne(part: string): (r: seq<string>)
    ensures |r| <= 1
  {
    if Trim(part, SPACES) == "" then [] else [Trim(part, SPACES)]
  }

  function FirstUnknown(t: Template, ctx: Context): Option<Token> {
    if t == [] then None
    else if t[0].Tok? && t[0].token !in ctx then Some(t[0].token)
    else FirstUnknown(t[1..], ctx)
  }

  /** `expand_template`. */
  function Expand(t: Template, ctx: Context, allowEmpty: bool): Result {
    if !Covers(ctx, t) then (match FirstUnknown(t, ctx) case Some(tok) => UnknownToken(tok) case None => Rejected)
    else if !AnyDropped(t, ctx) then Ok(Fill(t, ctx))
    else
      var out := Join(Segments(Fill(t, ctx)), '/');
      if out == "" && !allowEmpty then EmptyPath else Ok(out)
  }

  // ----- the save-time validator -------------------------------------------------------------

  datatype Media = Movie | Tv | Music | Data | Iso

  function Allowed(media: Media): set<Token> {
    match media
    case Movie => {Title, Year, Track, Duration, Slug, Ext}
    case Tv => {Show, Year, Season, Disc, Track, Episode, EpisodeTitle, Duration, Slug, Ext}
    case Music => {Artist, Album, Disc, Track, TrackTitle, Slug, Ext}
    case Data => {Title}
    case Iso => {Title, Year, Ext}
  }

  /** The stand-in value of a token. */
  function StandIn(media: Media, tok: Token): string {
    match tok
    case Title => if media == Data then "Data Disc" else "Iron Man"
    case Year => if media == Tv then "2004" else "2008"
    case Show => "Battlestar Galactica"
    case EpisodeTitle => "Pilot"
    case Duration => if media == Tv then "00h45m" else "02h05m"
    case Artist => "Pink Floyd"
    case Album => "The Dark Side of the Moon"
    case TrackTitle => "Speak to Me"
    case Slug => if media == Music then "flac" else "plex-1080p-h265"
    case Ext => if media == Music then "flac" else if media == Iso then "iso" else "mkv"
    case _ => "01"
  }

  function Synthetic(media: Media): Context {
    map tok | tok in Allowed(media) :: StandIn(media, tok)
  }

  /** The synthetic context with every optional token of the template empty. */
  function WithoutOptional(t: Template, media: Media): Context {
    map tok | tok in Synthetic(media) :: if tok in OptionalTokens(t) then "" else Synthetic(media)[tok]
  }

  /** `validate_template`: the preview, or why the template is refused. */
  function Validate(t: Template, media: Media, hasPreset: bool): Result {
    if !(Referenced(t) <= Allowed(media)) then Rejected
    else if OptionalTokens(t) * {Ext, Slug} != {} then Rejected
    else if Slug in Referenced(t) && !hasPreset then Rejected
    else if Ext in Referenced(t) && !hasPreset && media != Iso then Rejected
    else
      var preview := Expand(t, Synthetic(media), false);
      if !preview.Ok? then preview
      else if OptionalTokens(t) == {} then preview
      else
        var bare := Expand(t, WithoutOptional(t, media), false);
        if bare.Ok? then preview else bare
  }

  // ----- what can be seen of a text ----------------------------------------------------------

  /** Some character of `s` survives trimming and splitting. */
  predicate Visible(s: string) {
    exists c | c in s :: c != '/' && !IsSpace(c)
  }

  lemma {:induction false} SegmentsOfPair(a: string, b: string)
    ensures Segments(a + "/" + b) == Segments(a) + Segments(b)
  {
    SplitJoinedPair(a, b, '/');
    assert a + "/" + b == a + ['/'] + b;
    KeptAppend(Split(a, '/'), Split(b, '/'));
  }

  lemma {:induction false} KeptAppend(a: seq<string>, b: seq<string>)
    ensures Kept(a + b) == Kept(a) + Kept(b)
  {
    if a == [] {
      assert a + b == b;
    } else {
      assert (a + b)[1..] == a[1..] + b;
      KeptAppend(a[1..], b);
      assert Kept(a + b) == KeptOne(a[0]) + (Kept(a[1..]) + Kept(b));
    }
  }

  lemma {:induction false} KeptSegments(parts: seq<string>)
    requires forall p | p in parts :: '/' !in p
    ensures AllSegments(Kept(parts))
  {
    if parts != [] {
      var s := Trim(parts[0], SPACES);
      assert parts[0] in parts && '/' !in parts[0];
      var k := TrimPart(parts[0], SPACES);
      TrimFixed(s, SPACES);
      KeptSegments(parts[1..]);
      assert Kept(parts) == if s == "" then Kept(parts[1..]) else [s] + Kept(parts[1..]);
    }
  }

  lemma SegmentsAreSegments(s: string)
    ensures AllSegments(Segments(s))
  {
    KeptSegments(Split(s, '/'));
  }

  lemma {:induction false} SegmentsVisible(s: string)
    ensures Segments(s) != [] <==> Visible(s)
  {
    if '/' in s {
      var i :| 0 <= i < |s| && s[i] == '/';
      var a, b := s[..i], s[i + 1..];
      assert s == a + "/" + b;
      SegmentsOfPair(a, b);
      SegmentsVisible(a);
      SegmentsVisible(b);
      VisiblePair(a, b);
    } else {
      SplitWhole(s, '/');
      TrimEmpty(s, SPACES);
      assert Segments(s) == KeptOne(s) + Kept([]);
    }
  }

  lemma VisiblePair(a: string, b: string)
    ensures Visible(a + "/" + b) <==> Visible(a) || Visible(b)
  {
    assert forall c :: c in a + "/" + b <==> c in a || c == '/' || c in b;
  }

  lemma {:induction false} SegmentsJoin(parts: seq<string>)
    requires AllSegments(parts)
    ensures Join(parts, '/') == "" <==> parts == []
    ensures Segments(Join(parts, '/')) == parts
  {
    if parts != [] {
      SplitWhole(parts[0], '/');
      if |parts| > 1 {
        SegmentsJoin(parts[1..]);
        SegmentsOfPair(parts[0], Join(parts[1..], '/'));
      }
      assert Segments(parts[0]) == [parts[0]];
    }
  }

  /** When `expand_template` gives a path, and which segments it has; nothing is trimmed unless an optional
      token was dropped. */
  lemma ExpandSegments(t: Template, ctx: Context, allowEmpty: bool)
    requires Covers(ctx, t)
    ensures !AnyDropped(t, ctx) ==> Expand(t, ctx, allowEmpty) == Ok(Fill(t, ctx))
    ensures Expand(t, ctx, allowEmpty).Ok? <==> !AnyDropped(t, ctx) || allowEmpty || Visible(Fill(t, ctx))
    ensures Expand(t, ctx, allowEmpty).Ok? ==> Segments(Expand(t, ctx, allowEmpty).path) == Segments(Fill(t, ctx))
  {
    var parts := Segments(Fill(t, ctx));
    SegmentsAreSegments(Fill(t, ctx));
    SegmentsVisible(Fill(t, ctx));
    SegmentsJoin(parts);
  }
}
