/** From a job's tracks to output paths: the render context, the renderer that lets episode tokens be
    empty, the track suffix of bonus titles, and the loop over the tracks. */
module TrackPaths {
  import opened Options
  import opened Text
  import opened PathSanitize
  import opened PathTemplate
  import opened PathPieces

  // ----- decimal text ------------------------------------------------------------------------

  function Digit(n: nat): char
    requires n < 10
  {
    ['0', '1', '2', '3', '4', '5', '6', '7', '8', '9'][n]
  }

  function Decimal(n: nat): string {
    if n < 10 then [Digit(n)] else Decimal(n / 10) + [Digit(n % 10)]
  }

  /** `f"{n:02d}"`. */
  function Pad2(n: nat): string {
    if n < 10 then "0" + Decimal(n) else Decimal(n)
  }

  predicate Digits(s: string) {
    forall c | c in s :: IsDigit(c)
  }

  function Number(s: string): int
    requires Digits(s)
  {
    if s == "" then 0 else Number(s[..|s| - 1]) * 10 + (s[|s| - 1] as int - '0' as int)
  }

  lemma {:induction false} DecimalNumber(n: nat)
    ensures Digits(Decimal(n)) && Decimal(n) != "" && Number(Decimal(n)) == n
  {
    if n >= 10 {
      DecimalNumber(n / 10);
      assert Decimal(n)[..|Decimal(n)| - 1] == Decimal(n / 10);
    } else {
      assert Decimal(n)[..0] == "";
    }
  }

  /** The padded index is made of digits and gives the index back. */
  lemma Pad2Number(n: nat)
    ensures Digits(Pad2(n)) && Pad2(n) != "" && Number(Pad2(n)) == n
  {
    DecimalNumber(n);
    if n < 10 {
      var s := Pad2(n);
      assert s[..1] == "0" && s[..1][..0] == "";
      assert Number("0") == 0;
    }
  }

  // ----- the render context ------------------------------------------------------------------

  datatype Role = EpisodeRole | BonusRole
  datatype Kind = VideoTitle | AudioTrack | DataDump | DiscBackup

  datatype Job = Job(title: string, year: Option<nat>, season: Option<nat>, disc: Option<nat>, media: Option<Media>,
                     metaSeason: string, metaDisc: string, artist: string, album: string, trackTitles: seq<string>)

  datatype Track = Track(index: nat, kind: Kind, excluded: bool, role: Option<Role>, title: string, year: Option<nat>,
                         season: Option<nat>, episode: Option<nat>, episodeEnd: Option<nat>, episodeName: string, duration: nat, custom: string)

  /** A preset's slug is made of lower-case letters, digits and hyphens, its container is one of an enumeration. */
  datatype Preset = Preset(slug: string, ext: string)

  datatype Session = Session(media: Media, template: Template, preset: Option<Preset>)

  predicate PlainPreset(p: Option<Preset>) {
    p.Some? ==> '/' !in p.value.slug && '/' !in p.value.ext
  }

  function Either<T>(own: Option<T>, inherited: Option<T>): Option<T> {
    if own.Some? then own else inherited
  }

  function EpisodeText(track: Track): string {
    match track.episode
    case None => ""
    case Some(first) =>
      if track.episodeEnd.Some? && track.episodeEnd.value > first then Pad2(first) + "-E" + Pad2(track.episodeEnd.value)
      else Pad2(first)
  }

  function DurationText(seconds: nat): string {
    if seconds == 0 then "" else Pad2(seconds / 3600) + "h" + Pad2(seconds % 3600 / 60) + "m"
  }

  function SeasonText(job: Job, track: Track): string {
    var season := Either(track.season, job.season);
    if season.Some? then Pad2(season.value) else job.metaSeason
  }

  function DiscText(job: Job): string {
    if job.disc.Some? then Pad2(job.disc.value) else job.metaDisc
  }

  function TrackTitleText(job: Job, track: Track): string {
    if 0 <= track.index - 1 < |job.trackTitles| then job.trackTitles[track.index - 1] else ""
  }

  const KNOWN: set<Token> := {
    Title, Year, Show, Season, Disc, PathTemplate.Token.Track, Episode, EpisodeTitle, Duration, Artist, Album, TrackTitle, Slug, Ext
  }

  function ValueOf(job: Job, track: Track, preset: Option<Preset>, tok: Token): string {
    match tok
    case Title => Sanitize(if track.title != "" then track.title else job.title)
    case Year => if Either(track.year, job.year).Some? then Decimal(Either(track.year, job.year).value) else ""
    case Show => Sanitize(job.title)
    case Season => Sanitize(SeasonText(job, track))
    case Disc => Sanitize(DiscText(job))
    case Track => Pad2(track.index)
    case Episode => EpisodeText(track)
    case EpisodeTitle => Sanitize(track.episodeName)
    case Duration => DurationText(track.duration)
    case Artist => Sanitize(job.artist)
    case Album => Sanitize(job.album)
    case TrackTitle => Sanitize(TrackTitleText(job, track))
    case Slug => if preset.Some? then preset.value.slug else ""
    case Ext => if preset.Some? then preset.value.ext else ""
    case Other(_) => ""
  }

  /** `_build_track_ctx`. */
  function BuildContext(job: Job, track: Track, preset: Option<Preset>): Context {
    map tok | tok in KNOWN :: ValueOf(job, track, preset, tok)
  }

  lemma SanitizedHasNoSlash(value: string)
    ensures '/' !in Sanitize(value)
  {
    SanitizeSafe(value);
  }

  lemma EpisodeHasNoSlash(track: Track)
    ensures '/' !in EpisodeText(track)
  {
    if track.episode.Some? {
      Pad2Number(track.episode.value);
      if track.episodeEnd.Some? { Pad2Number(track.episodeEnd.value); }
    }
  }

  lemma DurationHasNoSlash(seconds: nat)
    ensures '/' !in DurationText(seconds)
  {
    Pad2Number(seconds / 3600);
    Pad2Number(seconds % 3600 / 60);
  }

  lemma ValueHasNoSlash(job: Job, track: Track, preset: Option<Preset>, tok: Token)
    requires PlainPreset(preset)
    ensures '/' !in ValueOf(job, track, preset, tok)
  {
    match tok
    case Year => if Either(track.year, job.year).Some? { DecimalNumber(Either(track.year, job.year).value); }
    case Track => Pad2Number(track.index);
    case Episode => EpisodeHasNoSlash(track);
    case Duration => DurationHasNoSlash(track.duration);
    case Title => SanitizedHasNoSlash(if track.title != "" then track.title else job.title);
    case Show => SanitizedHasNoSlash(job.title);
    case Season => SanitizedHasNoSlash(SeasonText(job, track));
    case Disc => SanitizedHasNoSlash(DiscText(job));
    case EpisodeTitle => SanitizedHasNoSlash(track.episodeName);
    case Artist => SanitizedHasNoSlash(job.artist);
    case Album => SanitizedHasNoSlash(job.album);
    case TrackTitle => SanitizedHasNoSlash(TrackTitleText(job, track));
    case _ =>
  }

  /** No value a track is rendered with can hold a path separator. */
  lemma ContextSlashFree(job: Job, track: Track, preset: Option<Preset>)
    requires PlainPreset(preset)
    ensures SlashFree(BuildContext(job, track, preset))
  {
    var ctx := BuildContext(job, track, preset);
    forall tok | tok in ctx ensures '/' !in ctx[tok] {
      ValueHasNoSlash(job, track, preset, tok);
    }
  }

  // ----- what a context says -------------------------------------------------------------------

  /** The track's own value, if it has one, else the job's. */
  function Own(track: string, job: string): string { if track != "" then track else job }

  /** The metadata a token shows: the track's own title over the job's, the show from the job, the music names, the
      title of the track by its index. */
  function NameFor(job: Job, track: Track, tok: Token): string {
    match tok
    case Title => Own(track.title, job.title)
    case Show => job.title
    case EpisodeTitle => track.episodeName
    case Artist => job.artist
    case Album => job.album
    case _ => if 1 <= track.index <= |job.trackTitles| then job.trackTitles[track.index - 1] else ""
  }

  lemma ContextValue(job: Job, track: Track, preset: Option<Preset>, tok: Token)
    requires !tok.Other?
    ensures tok in BuildContext(job, track, preset) && BuildContext(job, track, preset)[tok] == ValueOf(job, track, preset, tok)
  {
    assert tok in KNOWN;
  }

  /** Every ordinary character of the metadata shows in its token, in order and no other; a preset's slug and
      extension show as they are. */
  lemma ContextShowsNames(job: Job, track: Track, preset: Option<Preset>, tok: Token)
    requires tok in {Title, Show, EpisodeTitle, Artist, Album, TrackTitle, Slug, Ext}
    ensures tok in BuildContext(job, track, preset)
    ensures tok != Slug && tok != Ext ==> Letters(BuildContext(job, track, preset)[tok]) == Letters(NameFor(job, track, tok))
    ensures preset.Some? && tok == Slug ==> BuildContext(job, track, preset)[tok] == preset.value.slug
    ensures preset.Some? && tok == Ext ==> BuildContext(job, track, preset)[tok] == preset.value.ext
  {
    ContextValue(job, track, preset, tok);
    SanitizeKeepsLetters(NameFor(job, track, tok));
  }

  lemma DigitsAreSafe(s: string)
    requires Digits(s)
    ensures Sanitize(s) == s
  {
    assert forall i | 0 <= i < |s| :: s[i] in s;
    assert Safe(s);
    SafeIsFixed(s);
  }

  /** The numbers read back: the index, the year and the season, the track's own over the job's, and the disc. */
  lemma ContextShowsNumbers(job: Job, track: Track, preset: Option<Preset>, tok: Token, n: nat)
    requires match tok
      case Track => n == track.index
      case Year => track.year == Some(n) || (track.year.None? && job.year == Some(n))
      case Season => track.season == Some(n) || (track.season.None? && job.season == Some(n))
      case Disc => job.disc == Some(n)
      case _ => false
    ensures tok in BuildContext(job, track, preset) && ReadsAs(BuildContext(job, track, preset)[tok], n)
  {
    ContextValue(job, track, preset, tok);
    Pad2Number(n);
    DecimalNumber(n);
    DigitsAreSafe(Pad2(n));
  }

  predicate ReadsAs(s: string, n: nat) { s != "" && Digits(s) && Number(s) == n }

  /** The leading digits of a text. */
  function DigitFront(s: string): (d: string) {
    if s == "" || !IsDigit(s[0]) then "" else [s[0]] + DigitFront(s[1..])
  }

  lemma {:induction false} DigitFrontOf(digits: string, rest: string)
    requires Digits(digits) && (rest == "" || !IsDigit(rest[0]))
    ensures DigitFront(digits + rest) == digits
  {
    if digits == "" {
      assert digits + rest == rest;
    } else {
      assert digits[0] in digits && (digits + rest)[1..] == digits[1..] + rest;
      DigitFrontOf(digits[1..], rest);
    }
  }

  /** An episode's text gives its number back, and a double episode's the last number too. */
  lemma EpisodeReads(track: Track)
    requires track.episode.Some?
    ensures var s := EpisodeText(track);
      && ReadsAs(DigitFront(s), track.episode.value)
      && (track.episodeEnd.Some? && track.episode.value < track.episodeEnd.value ==> ReadsAs(DigitTail(s), track.episodeEnd.value))
      && (track.episodeEnd.None? || track.episodeEnd.value <= track.episode.value ==> Digits(s))
  {
    var first := Pad2(track.episode.value);
    Pad2Number(track.episode.value);
    assert first + "" == first;
    DigitFrontOf(first, "");
    if track.episodeEnd.Some? && track.episodeEnd.value > track.episode.value {
      var last := Pad2(track.episodeEnd.value);
      Pad2Number(track.episodeEnd.value);
      assert EpisodeText(track) == first + ("-E" + last);
      DigitFrontOf(first, "-E" + last);
      DigitTailOf(first + "-E", last);
    }
  }

  /** A duration's text gives back its hours and minutes; nothing is shown only for none. */
  lemma DurationReads(seconds: nat)
    ensures DurationText(seconds) == "" <==> seconds == 0
    ensures seconds > 0 ==>
      var s := DurationText(seconds);
      && s != "" && ReadsAs(DigitFront(s), seconds / 3600) && ReadsAs(DigitTail(s[..|s| - 1]), seconds / 60 % 60)
  {
    if seconds > 0 {
      Pad2Number(seconds / 3600);
      Pad2Number(seconds % 3600 / 60);
      MinutesOf(seconds);
      HoursAndMinutes(Pad2(seconds / 3600), Pad2(seconds % 3600 / 60), seconds / 3600, seconds % 3600 / 60);
    }
  }

  lemma MinutesOf(seconds: nat)
    ensures seconds % 3600 / 60 == seconds / 60 % 60
  {
  }

  lemma HoursAndMinutes(h: string, m: string, hours: nat, minutes: nat)
    requires ReadsAs(h, hours) && ReadsAs(m, minutes)
    ensures var s := h + "h" + m + "m";
      s != "" && ReadsAs(DigitFront(s), hours) && ReadsAs(DigitTail(s[..|s| - 1]), minutes)
  {
    var s := h + "h" + m + "m";
    assert s == h + ("h" + m + "m");
    DigitFrontOf(h, "h" + m + "m");
    DigitTailOf(h + "h", m);
    assert s[..|s| - 1] == (h + "h") + m;
  }

  // ----- tidying a segment whose episode token was empty ---------------------------------------

  predicate IsWord(c: char) { IsAlnum(c) || c == '_' }

  function DigitRun(s: string): (n: nat)
    ensures n <= |s|
  {
    if s == "" || !IsDigit(s[0]) then 0 else 1 + DigitRun(s[1..])
  }

  /** The length of a leading `S` with digits that an `E` follows and no letter or digit after it; else 0. */
  function SeasonMark(s: string): (n: nat)
    ensures n < |s| || n == 0
  {
    if s == "" || s[0] != 'S' then 0
    else
      var n := 1 + DigitRun(s[1..]);
      if n > 1 && n < |s| && s[n] == 'E' && (n + 1 == |s| || !IsAlnum(s[n + 1])) then n else 0
  }

  function DropDanglingE(s: string, afterWord: bool): string
    decreases |s|
  {
    if s == "" then ""
    else if !afterWord && SeasonMark(s) > 0 then s[..SeasonMark(s)] + DropDanglingE(s[SeasonMark(s) + 1..], true)
    else [s[0]] + DropDanglingE(s[1..], IsWord(s[0]))
  }

  predicate DashOrSpace(c: char) { c == '-' || IsSpace(c) }

  function DashRun(s: string): (n: nat)
    ensures n <= |s|
  {
    if s == "" || !DashOrSpace(s[0]) then 0 else 1 + DashRun(s[1..])
  }

  function Dashes(s: string): nat {
    if s == "" then 0 else (if s[0] == '-' then 1 else 0) + Dashes(s[1..])
  }

  /** A run of spaces and dashes with at least two dashes becomes one ` - `. */
  function MergeDashes(s: string): string
    decreases |s|
  {
    if s == "" then ""
    else if DashRun(s) == 0 then [s[0]] + MergeDashes(s[1..])
    else (if Dashes(s[..DashRun(s)]) >= 2 then " - " else s[..DashRun(s)]) + MergeDashes(s[DashRun(s)..])
  }

  function AlnumTail(s: string): (n: nat)
    ensures n <= |s|
    ensures forall i | |s| - n <= i < |s| :: IsAlnum(s[i])
    ensures n < |s| ==> !IsAlnum(s[|s| - n - 1])
  {
    if s == "" || !IsAlnum(s[|s| - 1]) then 0 else 1 + AlnumTail(s[..|s| - 1])
  }

  /** The file extension with its dot, or nothing. */
  function Extension(s: string): (e: string)
    ensures |e| <= |s| && e == s[|s| - |e|..]
  {
    var n := AlnumTail(s);
    if 0 < n < |s| && s[|s| - n - 1] == '.' then s[|s| - n - 1..] else ""
  }

  function Stem(s: string): string { s[..|s| - |Extension(s)|] }

  /** Without the dash that ends the stem, when there is an extension. */
  function DropDashBeforeExtension(s: string): string {
    var stem := TrimRight(Stem(s), SPACES);
    if Extension(s) != "" && stem != "" && stem[|stem| - 1] == '-' then TrimRight(stem[..|stem| - 1], SPACES) + Extension(s)
    else s
  }

  function Tidy(s: string): string {
    Trim(DropDashBeforeExtension(MergeDashes(Collapse(DropDanglingE(s, false)))), {' ', '-', '_'})
  }

  lemma {:induction false} DropDanglingEHasNoSlash(s: string, afterWord: bool)
    requires '/' !in s
    ensures '/' !in DropDanglingE(s, afterWord)
    decreases |s|
  {
    if s != "" {
      if !afterWord && SeasonMark(s) > 0 {
        DropDanglingEHasNoSlash(s[SeasonMark(s) + 1..], true);
      } else {
        DropDanglingEHasNoSlash(s[1..], IsWord(s[0]));
      }
    }
  }

  lemma {:induction false} MergeDashesHasNoSlash(s: string)
    requires '/' !in s
    ensures '/' !in MergeDashes(s)
    decreases |s|
  {
    if s != "" { MergeDashesHasNoSlash(s[if DashRun(s) == 0 then 1 else DashRun(s)..]); }
  }

  lemma PartHasNoSlash(s: string, k: nat, n: nat)
    requires k <= n <= |s| && '/' !in s
    ensures '/' !in s[k..n]
  {
  }

  lemma TrimRightHasNoSlash(s: string, drop: set<char>)
    requires '/' !in s
    ensures '/' !in TrimRight(s, drop)
  {
    TrimRightPart(s, drop);
    PartHasNoSlash(s, 0, |TrimRight(s, drop)|);
  }

  lemma DropDashHasNoSlash(s: string)
    requires '/' !in s
    ensures '/' !in DropDashBeforeExtension(s)
  {
    var stem := TrimRight(Stem(s), SPACES);
    PartHasNoSlash(s, 0, |Stem(s)|);
    PartHasNoSlash(s, |Stem(s)|, |s|);
    TrimRightHasNoSlash(Stem(s), SPACES);
    if stem != "" {
      PartHasNoSlash(stem, 0, |stem| - 1);
      TrimRightHasNoSlash(stem[..|stem| - 1], SPACES);
    }
  }

  /** Tidying adds no path level and leaves no separator at either end. */
  lemma TidyHasNoSlash(s: string)
    requires '/' !in s
    ensures '/' !in Tidy(s) && Trimmed(Tidy(s), {' ', '-', '_'})
  {
    DropDanglingEHasNoSlash(s, false);
    CollapseSpaced(DropDanglingE(s, false));
    MergeDashesHasNoSlash(Collapse(DropDanglingE(s, false)));
    DropDashHasNoSlash(MergeDashes(Collapse(DropDanglingE(s, false))));
    var text := DropDashBeforeExtension(MergeDashes(Collapse(DropDanglingE(s, false))));
    TrimHasNoSlash(text, {' ', '-', '_'});
    var k := TrimPart(text, {' ', '-', '_'});
  }

  lemma TrimHasNoSlash(s: string, drop: set<char>)
    requires '/' !in s
    ensures '/' !in Trim(s, drop)
  {
    var k := TrimPart(s, drop);
    PartHasNoSlash(s, k, k + |Trim(s, drop)|);
  }

  // ----- the track suffix ----------------------------------------------------------------------

  /** The extension of a file name; a pattern's `$` also matches before a final newline. */
  function SuffixExtension(name: string): (ext: string)
    ensures |ext| <= |name|
  {
    if name != "" && name[|name| - 1] == '\n' then Extension(name[..|name| - 1]) else Extension(name)
  }

  function SuffixHead(name: string): string {
    var stem := name[..|name| - |SuffixExtension(name)|];
    if stem != "" then stem + " - T" else "T"
  }

  /** `_with_track_suffix`. */
  function WithTrackSuffix(name: string, track: string): string {
    SuffixHead(name) + track + SuffixExtension(name)
  }

  function DigitTail(s: string): (d: string) {
    if s == "" || !IsDigit(s[|s| - 1]) then "" else DigitTail(s[..|s| - 1]) + [s[|s| - 1]]
  }

  /** The digits just before the extension: the track index a suffix put there. */
  function TrackOf(path: string): string {
    DigitTail(Stem(path))
  }

  lemma {:induction false} DigitTailOf(head: string, digits: string)
    requires Digits(digits) && head != "" && !IsDigit(head[|head| - 1])
    ensures DigitTail(head + digits) == digits
  {
    var s := head + digits;
    if digits == "" {
      assert s == head;
    } else {
      var last := digits[|digits| - 1];
      assert last in digits && s[|s| - 1] == last;
      assert s[..|s| - 1] == head + digits[..|digits| - 1];
      DigitTailOf(head, digits[..|digits| - 1]);
      assert digits == digits[..|digits| - 1] + [last];
    }
  }

  lemma {:induction false} AlnumTailOf(head: string, tail: string)
    requires head != "" && !IsAlnum(head[|head| - 1]) && forall c | c in tail :: IsAlnum(c)
    ensures AlnumTail(head + tail) == |tail|
  {
    var s := head + tail;
    if tail != "" {
      assert tail[|tail| - 1] in tail && s[|s| - 1] == tail[|tail| - 1];
      assert s[..|s| - 1] == head + tail[..|tail| - 1];
      AlnumTailOf(head, tail[..|tail| - 1]);
    } else {
      assert s == head;
    }
  }

  /** An extension is what a longer text that ends in it has as its extension, too. */
  lemma ExtensionOf(head: string, name: string)
    requires Extension(name) != ""
    ensures Extension(head + Extension(name)) == Extension(name)
  {
    var ext := Extension(name);
    var n := AlnumTail(name);
    var tail := ext[1..];
    assert forall c | c in tail :: IsAlnum(c);
    assert head + ext == (head + ".") + tail;
    AlnumTailOf(head + ".", tail);
    var s := head + ext;
    assert s[|s| - |tail| - 1..] == ext;
  }

  /** Digits after a ` - T` or a slash and `T` leave no extension. */
  lemma NoExtension(head: string, mark: char, digits: string)
    requires Digits(digits) && mark in {' ', '/'}
    ensures Extension(head + [mark] + "T" + digits) == ""
  {
    var tail := "T" + digits;
    var s := head + [mark] + "T" + digits;
    assert s == (head + [mark]) + tail;
    AlnumTailOf(head + [mark], tail);
  }

  lemma TrackBeforeExtension(head: string, track: string, ext: string)
    requires Digits(track) && head != "" && !IsDigit(head[|head| - 1])
    requires Extension(head + track + ext) == ext
    ensures TrackOf(head + track + ext) == track
  {
    assert Stem(head + track + ext) == head + track;
    DigitTailOf(head, track);
  }

  /** The index comes back out of a suffixed path, whatever directories it lies in. */
  lemma SuffixRoundTrip(dirs: string, name: string, track: string)
    requires Digits(track) && name != ""
    ensures TrackOf(dirs + WithTrackSuffix(name, track)) == track
  {
    var head, ext := SuffixHead(name), SuffixExtension(name);
    assert dirs + (head + track + ext) == (dirs + head) + track + ext;
    if ext != "" {
      SuffixWithExtension(dirs + head, if name[|name| - 1] == '\n' then name[..|name| - 1] else name, track);
    } else {
      HeadWithoutExtension(dirs, name);
      assert (dirs + head) + track + ext == (dirs + name + " -") + [' '] + "T" + track;
      SuffixWithoutExtension(dirs + name + " -", track);
    }
  }

  lemma Regroup(stem: string, track: string, ext: string)
    ensures (stem + " - T") + track + ext == (stem + " - ") + ("T" + track + ext)
    ensures "T" + track + ext == "" + ("T" + track + ext)
  {
    assert stem + " - T" == stem + " - " + "T";
  }

  /** The suffix goes between the name and its extension, and changes neither. */
  lemma SuffixKeepsName(name: string, track: string)
    ensures var stem, ext := name[..|name| - |SuffixExtension(name)|], SuffixExtension(name);
      && WithTrackSuffix(name, track) == (if stem == "" then "" else stem + " - ") + ("T" + track + ext)
      && (ext != "" ==> ext[0] == '.' && |ext| > 1 && forall i | 0 < i < |ext| :: IsAlnum(ext[i]))
      && (name == "" || name[|name| - 1] != '\n' ==> name == stem + ext)
  {
    var stem, ext := name[..|name| - |SuffixExtension(name)|], SuffixExtension(name);
    ExtensionShape(if name != "" && name[|name| - 1] == '\n' then name[..|name| - 1] else name);
    Regroup(stem, track, ext);
  }

  lemma ExtensionShape(name: string)
    ensures var ext := Extension(name);
      && name == name[..|name| - |ext|] + ext && (ext != "" ==> ext[0] == '.' && |ext| > 1 && forall i | 0 < i < |ext| :: IsAlnum(ext[i]))
  {
    var ext := Extension(name);
    assert name == name[..|name| - |ext|] + name[|name| - |ext|..];
  }

  lemma HeadWithoutExtension(dirs: string, name: string)
    requires name != "" && SuffixExtension(name) == ""
    ensures dirs + SuffixHead(name) == (dirs + name + " -") + [' '] + "T"
  {
    assert name[..|name|] == name;
    assert name + " - T" == (name + " -") + [' '] + "T";
  }

  lemma SuffixWithExtension(head: string, core: string, track: string)
    requires Digits(track) && head != "" && head[|head| - 1] == 'T' && Extension(core) != ""
    ensures TrackOf(head + track + Extension(core)) == track
  {
    ExtensionOf(head + track, core);
    TrackBeforeExtension(head, track, Extension(core));
  }

  lemma SuffixWithoutExtension(head: string, track: string)
    requires Digits(track)
    ensures TrackOf(head + [' '] + "T" + track) == track
  {
    NoExtension(head, ' ', track);
    var front := head + [' '] + "T";
    assert front + track + "" == head + [' '] + "T" + track;
    TrackBeforeExtension(front, track, "");
  }

  // ----- rendering with an empty episode ---------------------------------------------------------

  const EPISODE_TOKENS: set<Token> := {Episode, EpisodeTitle}

  predicate Lacks(ctx: Context, tok: Token) {
    tok !in ctx || ctx[tok] == ""
  }

  predicate EpisodeGap(piece: Template, ctx: Context) {
    exists tok | tok in EPISODE_TOKENS :: tok in Referenced(piece) && Lacks(ctx, tok)
  }

  /** What one piece puts into the path: one segment, or none. */
  function PieceText(piece: Template, ctx: Context): (r: seq<string>)
    requires Covers(ctx, piece)
  {
    assert Expand(piece, ctx, true).Ok? by { ExpandSegments(piece, ctx, true); }
    var seg := Expand(piece, ctx, true).path;
    if EpisodeGap(piece, ctx) then [Tidy(seg)]
    else if seg == "" && OptionalTokens(piece) != {} then []
    else [seg]
  }

  /** `_render_with_empty_episode`. */
  function RenderPieces(pieces: seq<Template>, ctx: Context): seq<string>
    requires forall p | p in pieces :: Covers(ctx, p)
  {
    if pieces == [] then [] else PieceText(pieces[0], ctx) + RenderPieces(pieces[1..], ctx)
  }

  lemma {:induction false} JoinSegments(parts: seq<string>, p: string)
    ensures Segments(Join([p] + parts, '/')) == Segments(p) + Segments(Join(parts, '/'))
  {
    if parts == [] {
      assert [p] + parts == [p];
      assert Segments("") == [];
    } else {
      assert ([p] + parts)[1..] == parts;
      SegmentsOfPair(p, Join(parts, '/'));
      assert Join([p] + parts, '/') == p + "/" + Join(parts, '/');
    }
  }

  lemma PieceTextSegments(piece: Template, ctx: Context)
    requires Covers(ctx, piece) && !EpisodeGap(piece, ctx)
    ensures |PieceText(piece, ctx)| <= 1
    ensures Segments(Join(PieceText(piece, ctx), '/')) == Segments(Fill(piece, ctx))
  {
    ExpandSegments(piece, ctx, true);
    assert Segments("") == [];
  }

  lemma {:induction false} RenderPiecesSegments(pieces: seq<Template>, ctx: Context)
    requires forall p | p in pieces :: Covers(ctx, p) && !EpisodeGap(p, ctx)
    ensures Segments(Join(RenderPieces(pieces, ctx), '/')) == PieceSegments(pieces, ctx)
  {
    if pieces == [] {
      assert Segments("") == [];
    } else {
      assert pieces[0] in pieces && pieces == [pieces[0]] + pieces[1..];
      RenderPiecesSegments(pieces[1..], ctx);
      PieceTextSegments(pieces[0], ctx);
      JoinedSegments(PieceText(pieces[0], ctx), RenderPieces(pieces[1..], ctx));
      OnePieceMore(pieces[0], pieces[1..], ctx);
    }
  }

  lemma JoinedSegments(first: seq<string>, parts: seq<string>)
    requires |first| <= 1
    ensures Segments(Join(first + parts, '/')) == Segments(Join(first, '/')) + Segments(Join(parts, '/'))
  {
    if first == [] {
      assert first + parts == parts && Segments("") == [];
    } else {
      JoinSegments(parts, first[0]);
      assert first == [first[0]];
    }
  }

  /** When every episode token the template references has a value, the two renderers agree on the segments. */
  lemma RenderersAgree(t: Template, ctx: Context)
    requires Covers(ctx, t) && (forall p | p in Pieces(t) :: Covers(ctx, p)) && !EpisodeGap(t, ctx)
    ensures Expand(t, ctx, true).Ok?
    ensures Segments(Join(RenderPieces(Pieces(t), ctx), '/')) == Segments(Expand(t, ctx, true).path)
  {
    PiecewiseAgrees(t, ctx);
    PiecesReferenced(t);
    RenderPiecesSegments(Pieces(t), ctx);
  }

  /** The pieces reference what the template references. */
  lemma {:induction false} PiecesReferenced(t: Template)
    ensures forall p | p in Pieces(t) :: Referenced(p) <= Referenced(t)
    ensures forall tok | tok in Referenced(t) :: exists p :: p in Pieces(t) && tok in Referenced(p)
  {
    if t != [] {
      PiecesReferenced(t[1..]);
      var rest := Pieces(t[1..]);
      var first := [t[0]] + rest[0];
      assert Referenced(t[1..]) <= Referenced(t) by { assert forall i | 0 <= i < |t| - 1 :: t[1..][i] == t[i + 1]; }
      assert Referenced(rest[0]) <= Referenced(first) by { assert forall i | 0 <= i < |rest[0]| :: first[i + 1] == rest[0][i]; }
      assert Referenced(first) <= Referenced(t) by {
        assert rest[0] in rest;
        assert forall i | 0 < i < |first| :: first[i] == rest[0][i - 1];
      }
      forall tok | tok in Referenced(t) ensures exists p :: p in Pieces(t) && tok in Referenced(p) {
        if tok in Referenced(t[1..]) {
          var p :| p in rest && tok in Referenced(p);
          var i :| 0 <= i < |rest| && rest[i] == p;
          if i == 0 && t[0] != Chr('/') { assert Pieces(t)[0] == first; }
          else if t[0] == Chr('/') { assert Pieces(t)[i + 1] == p; }
          else { assert Pieces(t)[i] == p; }
        } else {
          assert exists i | 0 <= i < |t| :: t[i].Tok? && t[i].token == tok;
          assert t[0].Tok? && t[0].token == tok by { assert forall i | 0 < i < |t| :: t[i] == t[1..][i - 1]; }
          assert first[0] == t[0] && Pieces(t)[0] == first;
        }
      }
    }
  }
}
