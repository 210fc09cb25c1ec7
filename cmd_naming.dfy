/**
 * File naming in musicdl_cmd.py: `sanitize_filename`, `format_filename`,
 * `get_song_quality`, `get_song_size` and `extract_song_info_from_filename`,
 * which reads `singer - title (album) [quality].ext` back.
 */
module CmdNaming {
  import opened Wrappers
  import opened PyStr
  import opened Songs
  import opened SongPattern

  const UnknownSinger: string := "未知歌手"
  const UnknownSong: string := "未知歌曲"
  const UnknownAlbum: string := "未知专辑"
  const DefaultExt: string := "mp3"
  const UnknownQuality: string := "未知音质"
  const UnknownSize: string := "未知大小"

  /** The characters `sanitize_filename` replaces with '_'. */
  const Illegal: string := "<>:\"/\\|?*"

  predicate IsControl(c: char) {
    c as int < 32
  }

  predicate NoControl(s: string) {
    forall k :: 0 <= k < |s| ==> !IsControl(s[k])
  }

  /** The characters `strip(' .')` removes. */
  predicate IsBlankOrDot(c: char) {
    c == ' ' || c == '.'
  }

  /** `s` after replacing every character of `cs` with '_'. */
  function ReplaceAmong(s: string, cs: string): (r: string)
    ensures |r| == |s|
  {
    seq(|s|, k requires 0 <= k < |s| => if s[k] in cs then '_' else s[k])
  }

  function ReplaceIllegal(s: string): (r: string)
    ensures |r| == |s|
  {
    ReplaceAmong(s, Illegal)
  }

  /** `''.join(char for char in s if ord(char) >= 32)`. */
  function DropControl(s: string): (r: string)
    ensures NoControl(r)
    ensures |r| <= |s|
  {
    if s == [] then []
    else (if IsControl(s[0]) then [] else [s[0]]) + DropControl(s[1..])
  }

  /** What `sanitize_filename` returns. */
  function SanitizeName(filename: string): string {
    StripBy(DropControl(ReplaceIllegal(filename)), IsBlankOrDot)
  }

  /** `sanitize_filename`: one `replace` per illegal character, then the control filter and the strip. */
  method SanitizeFilename(filename: string) returns (r: string)
    ensures r == SanitizeName(filename)
  {
    var name := filename;
    var i := 0;
    while i < |Illegal|
      invariant 0 <= i <= |Illegal|
      invariant name == ReplaceAmong(filename, Illegal[..i])
    {
      ReplaceStep(filename, Illegal[..i], Illegal[i]);
      name := Replace(name, Illegal[i], '_');
      assert Illegal[..i + 1] == Illegal[..i] + [Illegal[i]];
      i := i + 1;
    }
    assert Illegal[..i] == Illegal;
    name := DropControl(name);
    r := StripBy(name, IsBlankOrDot);
  }

  /** One more `replace` extends the set of replaced characters. */
  lemma ReplaceStep(s: string, cs: string, c: char)
    requires c != '_'
    ensures Replace(ReplaceAmong(s, cs), c, '_') == ReplaceAmong(s, cs + [c])
  {
  }

  /** A sanitized name holds no illegal or control character and neither starts nor ends with a space or a dot. */
  lemma SanitizeNameClean(filename: string)
    ensures forall k :: 0 <= k < |SanitizeName(filename)| ==>
      SanitizeName(filename)[k] !in Illegal && !IsControl(SanitizeName(filename)[k])
    ensures var r := SanitizeName(filename); r == [] || (!IsBlankOrDot(r[0]) && !IsBlankOrDot(r[|r| - 1]))
  {
    var replaced := ReplaceIllegal(filename);
    assert forall c :: c in replaced ==> c !in Illegal;
    var r := SanitizeName(filename);
    StripBySubset(DropControl(replaced), IsBlankOrDot);
    DropControlSubset(replaced);
    forall k | 0 <= k < |r|
      ensures r[k] !in Illegal && !IsControl(r[k])
    {
      assert r[k] in DropControl(replaced);
    }
  }

  /** The control filter only removes characters. */
  lemma {:induction false} DropControlSubset(s: string)
    ensures forall c :: c in DropControl(s) ==> c in s
  {
    if s != [] {
      DropControlSubset(s[1..]);
      assert forall c :: c in s[1..] ==> c in s;
    }
  }

  /** Sanitizing a sanitized name changes nothing. */
  lemma SanitizeNameIdempotent(filename: string)
    ensures SanitizeName(SanitizeName(filename)) == SanitizeName(filename)
  {
    var r := SanitizeName(filename);
    SanitizeNameClean(filename);
    assert ReplaceIllegal(r) == r;
    DropControlKeeps(r);
    StripByKeeps(r, IsBlankOrDot);
  }

  /** The control filter leaves a control-free string alone. */
  lemma {:induction false} DropControlKeeps(s: string)
    requires NoControl(s)
    ensures DropControl(s) == s
  {
    if s != [] {
      DropControlKeeps(s[1..]);
    }
  }

  /** The control filter works piece by piece. */
  lemma {:induction false} DropControlConcat(a: string, b: string)
    ensures DropControl(a + b) == DropControl(a) + DropControl(b)
  {
    if a == [] {
      assert a + b == b;
    } else {
      var head := if IsControl(a[0]) then [] else [a[0]];
      assert (a + b)[0] == a[0];
      assert (a + b)[1..] == a[1..] + b;
      assert DropControl(a + b) == head + DropControl(a[1..] + b);
      DropControlConcat(a[1..], b);
      assert head + (DropControl(a[1..]) + DropControl(b)) == (head + DropControl(a[1..])) + DropControl(b);
    }
  }

  lemma ReplaceIllegalConcat(a: string, b: string)
    ensures ReplaceIllegal(a + b) == ReplaceIllegal(a) + ReplaceIllegal(b)
  {
  }

  /** The quality `format_filename` looks up; '' when absent. */
  function QualityTag(song: Song): Json {
    DataField(song.rawData, "quality", Str(""))
  }

  /** The f-string `format_filename` fills in before sanitizing. */
  function FilenameTemplate(song: Song): string {
    var singer := Or(song.singers, UnknownSinger);
    var songname := Or(song.songName, UnknownSong);
    var album := Or(song.album, UnknownAlbum);
    var ext := Or(song.ext, DefaultExt);
    var quality := QualityTag(song);
    if Truthy(quality) then
      singer + " - " + songname + " (" + album + ") [" + Render(quality) + "]." + ext
    else
      singer + " - " + songname + " (" + album + ")." + ext
  }

  /** `format_filename`. */
  function FormatFilename(song: Song): string {
    SanitizeName(FilenameTemplate(song))
  }

  /** `get_song_quality`. */
  function GetSongQuality(song: Song): (r: Json)
    ensures HasDataField(song.rawData, "quality") ==> r == DownloadData(song.rawData).value["quality"]
    ensures !HasDataField(song.rawData, "quality") ==> r == Str(UnknownQuality)
  {
    DataField(song.rawData, "quality", Str(UnknownQuality))
  }

  /** `get_song_size`. */
  function GetSongSize(song: Song): (r: Json)
    ensures HasDataField(song.rawData, "size") ==> r == DownloadData(song.rawData).value["size"]
    ensures !HasDataField(song.rawData, "size") ==> r == Str(Or(song.fileSize, UnknownSize))
  {
    DataField(song.rawData, "size", Str(Or(song.fileSize, UnknownSize)))
  }

  /**
   * The file name carries a ` [quality]` tag exactly when `get_song_quality`
   * finds a truthy value there, and the tag is that value.
   */
  lemma QualityTagAgreesWithGetSongQuality(song: Song)
    ensures Truthy(QualityTag(song)) <==> HasDataField(song.rawData, "quality") && Truthy(GetSongQuality(song))
    ensures Truthy(QualityTag(song)) ==> QualityTag(song) == GetSongQuality(song)
  {
  }

  /** `extract_song_info_from_filename`. */
  function ExtractSongInfo(filename: string): (r: Option<(string, string)>)
    ensures r.None? <==> SplitExt(filename).0 == "" || MatchIndices(SplitExt(filename).0).None?
    ensures r.Some? ==> Strip(r.value.0) == r.value.0 && Strip(r.value.1) == r.value.1
  {
    var root := SplitExt(filename).0;
    if root == "" then None
    else
      match MatchIndices(root)
      case None => None
      case Some((i, m, n)) =>
        StripByIdempotent(root[..i], IsSpace);
        StripByIdempotent(root[m..n], IsSpace);
        Some((Strip(root[..i]), Strip(root[m..n])))
  }

  /** The parser reports no match exactly when no split of the name fits the pattern. */
  lemma ExtractSongInfoNone(filename: string)
    ensures ExtractSongInfo(filename).None? <==>
      var root := SplitExt(filename).0;
      root == "" || forall i: nat, m: nat, n: nat :: !Accepts(root, i, m, n)
  {
    var root := SplitExt(filename).0;
    if MatchIndices(root).Some? {
      var (i, m, n) := MatchIndices(root).value;
      assert Accepts(root, i, m, n);
    }
  }

  /** A singer that survives naming and parsing unchanged (apart from illegal characters). */
  predicate SingerRoundTrips(a: string) {
    |a| > 0 && NoControl(a) && '-' !in a && !IsSpace(a[0]) && a[0] != '.' && !IsSpace(a[|a| - 1])
  }

  /** A title that survives naming and parsing unchanged (apart from illegal characters). */
  predicate TitleRoundTrips(b: string) {
    |b| > 0 && NoControl(b) && '(' !in b && '[' !in b && !IsSpace(b[0]) && !IsSpace(b[|b| - 1])
  }

  /** An extension that the final strip leaves in place. */
  predicate ExtRoundTrips(e: string) {
    |e| > 0 && NoControl(e) && '.' !in e && e[|e| - 1] != ' '
  }

  /** What the template puts between ` (` and the final `.ext`: the album, `)` and the optional quality tag. */
  function TemplateMiddle(song: Song): string {
    var album := Or(song.album, UnknownAlbum);
    var quality := QualityTag(song);
    if Truthy(quality) then album + ") [" + Render(quality) + "]" else album + ")"
  }

  /** The template is singer, ` - `, title, ` (`, the middle part and `.ext`. */
  lemma TemplateParts(song: Song)
    ensures FilenameTemplate(song)
      == (Or(song.singers, UnknownSinger) + " - " + Or(song.songName, UnknownSong) + " (")
        + TemplateMiddle(song) + ("." + Or(song.ext, DefaultExt))
  {
  }

  /** `ReplaceIllegal` leaves text without illegal characters alone. */
  lemma ReplaceIllegalKeeps(s: string)
    requires forall k :: 0 <= k < |s| ==> s[k] !in Illegal
    ensures ReplaceIllegal(s) == s
  {
  }

  /** The head of the template after replacement. */
  lemma ReplaceIllegalHead(singer: string, songname: string)
    ensures ReplaceIllegal(singer + " - " + songname + " (")
      == ReplaceIllegal(singer) + " - " + ReplaceIllegal(songname) + " ("
  {
    ReplaceIllegalConcat(singer + " - " + songname, " (");
    ReplaceIllegalConcat(singer + " - ", songname);
    ReplaceIllegalConcat(singer, " - ");
    ReplaceIllegalKeeps(" - ");
    ReplaceIllegalKeeps(" (");
  }

  /**
   * Sanitizing three pieces whose outer ones are control-free after replacement
   * and that start and end with neither a blank nor a dot.
   */
  lemma SanitizeThree(x: string, y: string, z: string)
    requires NoControl(ReplaceIllegal(x)) && NoControl(ReplaceIllegal(z))
    requires |x| > 0 && |z| > 0
    requires !IsBlankOrDot(ReplaceIllegal(x)[0]) && !IsBlankOrDot(ReplaceIllegal(z)[|z| - 1])
    ensures SanitizeName(x + y + z) == ReplaceIllegal(x) + DropControl(ReplaceIllegal(y)) + ReplaceIllegal(z)
  {
    var rx, ry, rz := ReplaceIllegal(x), ReplaceIllegal(y), ReplaceIllegal(z);
    ReplaceIllegalConcat(x + y, z);
    ReplaceIllegalConcat(x, y);
    DropControlConcat(rx + ry, rz);
    DropControlConcat(rx, ry);
    DropControlKeeps(rx);
    DropControlKeeps(rz);
    var full := rx + DropControl(ry) + rz;
    assert full[0] == rx[0];
    assert full[|full| - 1] == rz[|rz| - 1];
    StripByKeeps(full, IsBlankOrDot);
  }

  /** `ReplaceIllegal` only ever writes '_', which keeps every shape condition above. */
  lemma ReplaceIllegalKeepsShape(s: string)
    ensures SingerRoundTrips(s) ==> SingerRoundTrips(ReplaceIllegal(s))
    ensures TitleRoundTrips(s) ==> TitleRoundTrips(ReplaceIllegal(s))
    ensures ExtRoundTrips(s) ==> ExtRoundTrips(ReplaceIllegal(s))
  {
    var r := ReplaceIllegal(s);
    assert forall k :: 0 <= k < |r| ==> r[k] == s[k] || r[k] == '_';
  }

  /** The head of the template is control-free when singer and title are. */
  lemma NoControlHead(a: string, b: string)
    requires NoControl(a) && NoControl(b)
    ensures NoControl(a + " - " + b + " (")
  {
    var rx := a + " - " + b + " (";
    assert forall k :: 0 <= k < |a| ==> rx[k] == a[k];
    assert forall k :: 0 <= k < |b| ==> rx[|a| + 3 + k] == b[k];
  }

  /** `.ext` is control-free when the extension is. */
  lemma NoControlDot(e: string)
    requires NoControl(e)
    ensures NoControl("." + e)
  {
    assert forall k :: 0 <= k < |e| ==> ("." + e)[k + 1] == e[k];
  }

  /** The sanitized template, written as its parts. */
  lemma SanitizeTemplate(singer: string, songname: string, middle: string, ext: string)
    requires SingerRoundTrips(singer) && TitleRoundTrips(songname) && ExtRoundTrips(ext)
    ensures SanitizeName((singer + " - " + songname + " (") + middle + ("." + ext))
      == ReplaceIllegal(singer) + " - " + ReplaceIllegal(songname) + " ("
        + DropControl(ReplaceIllegal(middle)) + "." + ReplaceIllegal(ext)
  {
    var a, b, e := ReplaceIllegal(singer), ReplaceIllegal(songname), ReplaceIllegal(ext);
    ReplaceIllegalKeepsShape(singer);
    ReplaceIllegalKeepsShape(songname);
    ReplaceIllegalKeepsShape(ext);
    ReplaceIllegalHead(singer, songname);
    ReplaceIllegalConcat(".", ext);
    ReplaceIllegalKeeps(".");
    var rx := a + " - " + b + " (";
    NoControlHead(a, b);
    NoControlDot(e);
    assert rx[0] == a[0];
    assert ("." + e)[|e|] == e[|e| - 1];
    var x := singer + " - " + songname + " (";
    assert ReplaceIllegal(x) == rx;
    assert ReplaceIllegal("." + ext) == "." + e;
    SanitizeThree(x, middle, "." + ext);
    var m := DropControl(ReplaceIllegal(middle));
    assert rx + m + ("." + e) == a + " - " + b + " (" + m + "." + e;
  }

  /** The sanitized name, written as its parts. */
  lemma FormatFilenameParts(song: Song)
    requires SingerRoundTrips(Or(song.singers, UnknownSinger))
    requires TitleRoundTrips(Or(song.songName, UnknownSong))
    requires ExtRoundTrips(Or(song.ext, DefaultExt))
    ensures FormatFilename(song)
      == ReplaceIllegal(Or(song.singers, UnknownSinger)) + " - " + ReplaceIllegal(Or(song.songName, UnknownSong))
        + " (" + DropControl(ReplaceIllegal(TemplateMiddle(song))) + "." + ReplaceIllegal(Or(song.ext, DefaultExt))
  {
    TemplateParts(song);
    SanitizeTemplate(Or(song.singers, UnknownSinger), Or(song.songName, UnknownSong),
      TemplateMiddle(song), Or(song.ext, DefaultExt));
  }

  /** `a - b (rest` has the shape the pattern splits at `a` and `b`. */
  lemma HeadShaped(a: string, b: string, rest: string, s: string)
    requires SingerRoundTrips(a) && TitleRoundTrips(b)
    requires s == a + " - " + b + " (" + rest
    ensures Shaped(s, |a|, |a| + 3, |a| + 3 + |b|)
    ensures s[..|a|] == a && s[|a| + 3..|a| + 3 + |b|] == b && s[|a|] != '.'
  {
    var i, m, n := |a|, |a| + 3, |a| + 3 + |b|;
    assert forall k :: 0 <= k < i ==> s[k] == a[k];
    assert forall k :: m <= k < n ==> s[k] == b[k - m];
    assert forall k :: 0 <= k < i ==> s[k] != '\n' && s[k] != '-';
    assert forall k :: m <= k < n ==> s[k] != '\n' && s[k] != '(' && s[k] != '[';
    assert s[..i] == a;
    assert s[m..n] == b;
  }

  /** A name `a - b (mid.e)` of the right shape parses back to `a` and `b`, and `e` is its extension. */
  lemma ParseBack(a: string, b: string, mid: string, e: string)
    requires SingerRoundTrips(a) && TitleRoundTrips(b) && '.' !in e
    ensures ExtractSongInfo(a + " - " + b + " (" + mid + "." + e) == Some((a, b))
    ensures SplitExt(a + " - " + b + " (" + mid + "." + e).1 == "." + e
  {
    var root := a + " - " + b + " (" + mid;
    var i, m, n := |a|, |a| + 3, |a| + 3 + |b|;
    HeadShaped(a, b, mid, root);
    SplitExtAt(root, e);
    ShapedMatch(root, i, m, n);
    StripByKeeps(a, IsSpace);
    StripByKeeps(b, IsSpace);
    ExtractFromRoot(root + "." + e, root, a, b, i, m, n);
  }

  /** How the parser reads a name once the root and the match are known. */
  lemma ExtractFromRoot(filename: string, root: string, a: string, b: string, i: nat, m: nat, n: nat)
    requires SplitExt(filename).0 == root && root != ""
    requires MatchIndices(root) == Some((i, m, n))
    requires i <= m <= n <= |root| && root[..i] == a && root[m..n] == b
    requires Strip(a) == a && Strip(b) == b
    ensures ExtractSongInfo(filename) == Some((a, b))
  {
  }

  /**
   * Near round trip: the name `format_filename` builds parses back to its singer
   * and title, with illegal characters turned into '_', and keeps its extension.
   */
  lemma FormatFilenameRoundTrip(song: Song)
    requires SingerRoundTrips(Or(song.singers, UnknownSinger))
    requires TitleRoundTrips(Or(song.songName, UnknownSong))
    requires ExtRoundTrips(Or(song.ext, DefaultExt))
    ensures ExtractSongInfo(FormatFilename(song))
      == Some((ReplaceIllegal(Or(song.singers, UnknownSinger)), ReplaceIllegal(Or(song.songName, UnknownSong))))
    ensures SplitExt(FormatFilename(song)).1 == "." + ReplaceIllegal(Or(song.ext, DefaultExt))
  {
    ReplaceIllegalKeepsShape(Or(song.singers, UnknownSinger));
    ReplaceIllegalKeepsShape(Or(song.songName, UnknownSong));
    ReplaceIllegalKeepsShape(Or(song.ext, DefaultExt));
    FormatFilenameParts(song);
    ParseBack(ReplaceIllegal(Or(song.singers, UnknownSinger)), ReplaceIllegal(Or(song.songName, UnknownSong)),
      DropControl(ReplaceIllegal(TemplateMiddle(song))), ReplaceIllegal(Or(song.ext, DefaultExt)));
  }

  /**
   * The song with its singer and title spelled as its file name spells
   * them: every character `sanitize_filename` replaces turned into '_'.
   */
  function Sanitized(song: Song): Song {
    song.(singers := ReplaceIllegal(song.singers), songName := ReplaceIllegal(song.songName))
  }

  /** Defaulting a field and replacing its illegal characters commute, since the defaults hold none. */
  lemma SanitizedFields(song: Song)
    ensures Or(Sanitized(song).singers, UnknownSinger) == ReplaceIllegal(Or(song.singers, UnknownSinger))
    ensures Or(Sanitized(song).songName, UnknownSong) == ReplaceIllegal(Or(song.songName, UnknownSong))
  {
    ReplaceIllegalKeeps(UnknownSinger);
    ReplaceIllegalKeeps(UnknownSong);
  }
}
