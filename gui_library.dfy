/**
 * The naming and duplicate check of musicdl_gui.py. The GUI repeats the
 * CLI's file name code inline, lower-cases what it parses out of a file
 * name, and looks up only the trimmed, lower-cased pair of a song.
 */
module GuiLibrary {
  import opened Wrappers
  import opened PyStr
  import opened Songs
  import opened StableFilter
  import opened LibraryIndex
  import opened SongPattern
  import CmdNaming

  /** The GUI's placeholder for a missing quality or size. */
  const NoValue: string := "-"

  /** `get_song_quality`. */
  function GetSongQuality(song: Song): (r: Json)
    ensures HasDataField(song.rawData, "quality") ==> r == DownloadData(song.rawData).value["quality"]
    ensures !HasDataField(song.rawData, "quality") ==> r == Str(NoValue)
  {
    DataField(song.rawData, "quality", Str(NoValue))
  }

  /** `get_song_size`. */
  function GetSongSize(song: Song): (r: Json)
    ensures HasDataField(song.rawData, "size") ==> r == DownloadData(song.rawData).value["size"]
    ensures !HasDataField(song.rawData, "size") ==> r == Str(Or(song.fileSize, NoValue))
  {
    DataField(song.rawData, "size", Str(Or(song.fileSize, NoValue)))
  }

  /** The two scripts report the same quality and size and differ only in the placeholder. */
  lemma QualityAndSizeAgreeWithCli(song: Song)
    ensures HasDataField(song.rawData, "quality") ==> GetSongQuality(song) == CmdNaming.GetSongQuality(song)
    ensures !HasDataField(song.rawData, "quality") ==>
      GetSongQuality(song) == Str("-") && CmdNaming.GetSongQuality(song) == Str(CmdNaming.UnknownQuality)
    ensures song.fileSize != "" || HasDataField(song.rawData, "size") ==> GetSongSize(song) == CmdNaming.GetSongSize(song)
  {
  }

  /** `format_filename` with its inline clean-up loop; it builds the very name the CLI builds. */
  method FormatFilename(song: Song) returns (filename: string)
    ensures filename == CmdNaming.FormatFilename(song)
  {
    var singer := Or(song.singers, CmdNaming.UnknownSinger);
    var songname := Or(song.songName, CmdNaming.UnknownSong);
    var album := Or(song.album, CmdNaming.UnknownAlbum);
    var ext := Or(song.ext, CmdNaming.DefaultExt);
    var quality := CmdNaming.QualityTag(song);
    if Truthy(quality) {
      filename := singer + " - " + songname + " (" + album + ") [" + Render(quality) + "]." + ext;
    } else {
      filename := singer + " - " + songname + " (" + album + ")." + ext;
    }
    ghost var template := filename;
    assert template == CmdNaming.FilenameTemplate(song);
    var illegal := CmdNaming.Illegal;
    var i := 0;
    while i < |illegal|
      invariant 0 <= i <= |illegal|
      invariant filename == CmdNaming.ReplaceAmong(template, illegal[..i])
    {
      CmdNaming.ReplaceStep(template, illegal[..i], illegal[i]);
      filename := Replace(filename, illegal[i], '_');
      assert illegal[..i + 1] == illegal[..i] + [illegal[i]];
      i := i + 1;
    }
    assert illegal[..i] == illegal;
    filename := CmdNaming.DropControl(filename);
    filename := StripBy(filename, CmdNaming.IsBlankOrDot);
  }

  /** `extract_song_info_from_filename`: the CLI parse, lower-cased. */
  function ExtractSongInfo(filename: string): (r: Option<Entry>)
    ensures r.None? <==> CmdNaming.ExtractSongInfo(filename).None?
    ensures r.Some? ==>
      r.value == (Lower(CmdNaming.ExtractSongInfo(filename).value.0), Lower(CmdNaming.ExtractSongInfo(filename).value.1))
  {
    var root := SplitExt(filename).0;
    if root == "" then None
    else
      match MatchIndices(root)
      case None => None
      case Some((i, m, n)) => Some((Lower(Strip(root[..i])), Lower(Strip(root[m..n]))))
  }

  /** Parsed pairs are trimmed and lower-case. */
  lemma ExtractSongInfoNormalized(filename: string)
    ensures ExtractSongInfo(filename).Some? ==>
      var (a, b) := ExtractSongInfo(filename).value;
      Lower(a) == a && Strip(a) == a && Lower(b) == b && Strip(b) == b
  {
    var cli := CmdNaming.ExtractSongInfo(filename);
    if cli.Some? {
      var (a, b) := cli.value;
      LowerIdempotent(a);
      LowerIdempotent(b);
      StripLowerCommute(a);
      StripLowerCommute(b);
    }
  }

  /** One directory entry as the GUI scan reads it. */
  function RecognizeFile(name: string): Option<Entry> {
    Recognize(name, ExtractSongInfo)
  }

  /** The index the GUI scan builds from a listing. */
  function Index(listing: Option<seq<string>>): set<Entry> {
    if listing.Some? then Collect(listing.value, RecognizeFile) else {}
  }

  /** An index entry comes from an audio file in the listing that parses to it. */
  lemma IndexMembership(names: seq<string>, e: Entry)
    ensures e in Index(Some(names)) <==>
      exists k :: 0 <= k < |names| && IsAudioFile(names[k]) && ExtractSongInfo(names[k]) == Some(e)
  {
    CollectMembership(names, RecognizeFile, e);
  }

  /** `scan_existing_songs` over a listing; every entry is trimmed and lower-case. */
  method ScanExistingSongs(listing: Option<seq<string>>) returns (index: set<Entry>)
    ensures index == Index(listing)
    ensures forall e :: e in index ==> Lower(e.0) == e.0 && Strip(e.0) == e.0 && Lower(e.1) == e.1 && Strip(e.1) == e.1
  {
    index := ScanNames(listing, RecognizeFile);
    forall e | e in index
      ensures Lower(e.0) == e.0 && Strip(e.0) == e.0 && Lower(e.1) == e.1 && Strip(e.1) == e.1
    {
      CollectMembership(listing.value, RecognizeFile, e);
      var k :| 0 <= k < |listing.value| && RecognizeFile(listing.value[k]) == Some(e);
      RecognizedNormalized(listing.value[k], e);
    }
  }

  lemma RecognizedNormalized(name: string, e: Entry)
    requires RecognizeFile(name) == Some(e)
    ensures Lower(e.0) == e.0 && Strip(e.0) == e.0 && Lower(e.1) == e.1 && Strip(e.1) == e.1
  {
    ExtractSongInfoNormalized(name);
  }

  /** The one key the GUI looks up for a song. */
  function Key(song: Song): Entry {
    (Lower(Strip(Or(song.singers, CmdNaming.UnknownSinger))), Lower(Strip(Or(song.songName, CmdNaming.UnknownSong))))
  }

  /** `is_song_exists`. */
  predicate IsSongExists(song: Song, index: set<Entry>) {
    Key(song) in index
  }

  function Duplicate(index: set<Entry>): Song -> bool {
    song => IsSongExists(song, index)
  }

  /**
   * `filter_duplicate_songs`: scan, then return the input untouched with two
   * zeros when nothing is indexed, or the stable filter, the skip count and
   * the index size.
   */
  method FilterDuplicateSongs(songs: seq<Song>, listing: Option<seq<string>>)
    returns (newSongs: seq<Song>, skipped: nat, indexSize: nat)
    ensures Index(listing) == {} ==> newSongs == songs && skipped == 0 && indexSize == 0
    ensures Index(listing) != {} ==> indexSize == |Index(listing)|
    ensures newSongs == KeepNew(songs, Duplicate(Index(listing)))
    ensures skipped == CountDup(songs, Duplicate(Index(listing)))
    ensures |newSongs| + skipped == |songs|
  {
    var index := ScanExistingSongs(listing);
    KeepNewCount(songs, Duplicate(index));
    if index == {} {
      KeepNewAllNew(songs, Duplicate(index));
      return songs, 0, 0;
    }
    newSongs, skipped := FilterBy(songs, Duplicate(index));
    indexSize := |index|;
  }

  /** Adding entries to the index can only turn "new" into "exists". */
  lemma IsSongExistsMonotone(song: Song, index: set<Entry>, bigger: set<Entry>)
    requires index <= bigger
    ensures IsSongExists(song, index) ==> IsSongExists(song, bigger)
  {
  }

  /** ASCII case in the song's singer and title does not change the answer. */
  lemma IsSongExistsIgnoresCase(song: Song, index: set<Entry>)
    ensures IsSongExists(song.(singers := Lower(song.singers), songName := Lower(song.songName)), index)
      == IsSongExists(song, index)
  {
    KeyFoldsCase(Or(song.singers, CmdNaming.UnknownSinger));
    KeyFoldsCase(Or(song.songName, CmdNaming.UnknownSong));
    assert Or(Lower(song.singers), CmdNaming.UnknownSinger) == Lower(Or(song.singers, CmdNaming.UnknownSinger)) by {
      LowerDefault(song.singers, CmdNaming.UnknownSinger);
    }
    assert Or(Lower(song.songName), CmdNaming.UnknownSong) == Lower(Or(song.songName, CmdNaming.UnknownSong)) by {
      LowerDefault(song.songName, CmdNaming.UnknownSong);
    }
  }

  lemma KeyFoldsCase(s: string)
    ensures Lower(Strip(Lower(s))) == Lower(Strip(s))
  {
    StripLowerCommute(s);
    LowerIdempotent(Strip(s));
  }

  /** The default names hold no ASCII capital, so defaulting commutes with lower-casing. */
  lemma LowerDefault(s: string, default: string)
    requires default == CmdNaming.UnknownSinger || default == CmdNaming.UnknownSong
    ensures Or(Lower(s), default) == Lower(Or(s, default))
  {
    assert Lower(default) == default;
  }

  /** Whitespace before and after a non-empty singer and title, any amount on each side of each, does not change the answer. */
  lemma IsSongExistsIgnoresPadding(song: Song, index: set<Entry>, p1: string, q1: string, p2: string, q2: string)
    requires song.singers != "" && song.songName != ""
    requires forall k :: 0 <= k < |p1| ==> IsSpace(p1[k])
    requires forall k :: 0 <= k < |q1| ==> IsSpace(q1[k])
    requires forall k :: 0 <= k < |p2| ==> IsSpace(p2[k])
    requires forall k :: 0 <= k < |q2| ==> IsSpace(q2[k])
    ensures IsSongExists(song.(singers := p1 + song.singers + q1, songName := p2 + song.songName + q2), index)
      == IsSongExists(song, index)
  {
    StripPadding(p1, song.singers, q1);
    StripPadding(p2, song.songName, q2);
  }

  /** A listing that ends with an audio file parsing to `e` puts `e` in the index. */
  lemma IndexHasLast(names: seq<string>, file: string, e: Entry)
    requires IsAudioFile(file) && ExtractSongInfo(file) == Some(e)
    ensures e in Index(Some(names + [file]))
  {
    var all := names + [file];
    assert all[|names|] == file;
    IndexMembership(all, e);
  }

  /**
   * A song whose singer and title contain no character the file name
   * replaces, saved under its formatted name with an audio extension, is
   * found again by the next scan.
   */
  lemma DownloadedSongDetected(song: Song, names: seq<string>)
    requires CmdNaming.SingerRoundTrips(Or(song.singers, CmdNaming.UnknownSinger))
    requires CmdNaming.TitleRoundTrips(Or(song.songName, CmdNaming.UnknownSong))
    requires CmdNaming.ExtRoundTrips(Or(song.ext, CmdNaming.DefaultExt))
    requires forall k :: 0 <= k < |Or(song.singers, CmdNaming.UnknownSinger)| ==>
      Or(song.singers, CmdNaming.UnknownSinger)[k] !in CmdNaming.Illegal
    requires forall k :: 0 <= k < |Or(song.songName, CmdNaming.UnknownSong)| ==>
      Or(song.songName, CmdNaming.UnknownSong)[k] !in CmdNaming.Illegal
    requires Lower("." + CmdNaming.ReplaceIllegal(Or(song.ext, CmdNaming.DefaultExt))) in AudioExtensions
    ensures IsSongExists(song, Index(Some(names + [CmdNaming.FormatFilename(song)])))
  {
    var a, b := Or(song.singers, CmdNaming.UnknownSinger), Or(song.songName, CmdNaming.UnknownSong);
    var file := CmdNaming.FormatFilename(song);
    CmdNaming.FormatFilenameRoundTrip(song);
    CmdNaming.ReplaceIllegalKeeps(a);
    CmdNaming.ReplaceIllegalKeeps(b);
    assert IsAudioFile(file);
    IndexHasLast(names, file, (Lower(a), Lower(b)));
    StripByKeeps(a, IsSpace);
    StripByKeeps(b, IsSpace);
  }

  /**
   * Unlike the CLI, the GUI matches a file whose name differs from a search
   * result only in ASCII case.
   */
  lemma MixedCaseFileFound(file: string, a: string, b: string, song: Song)
    requires IsAudioFile(file) && CmdNaming.ExtractSongInfo(file) == Some((a, b))
    requires a != "" && b != ""
    requires song.singers == Lower(a) && song.songName == Lower(b)
    ensures IsSongExists(song, Index(Some([file])))
  {
    IndexHasLast([], file, (Lower(a), Lower(b)));
    assert [] + [file] == [file];
    MixedCaseKey(a, b, song);
  }

  lemma MixedCaseKey(a: string, b: string, song: Song)
    requires a == Strip(a) && b == Strip(b) && a != "" && b != ""
    requires song.singers == Lower(a) && song.songName == Lower(b)
    ensures Key(song) == (Lower(a), Lower(b))
  {
    LoweredFieldKey(a, CmdNaming.UnknownSinger);
    LoweredFieldKey(b, CmdNaming.UnknownSong);
  }

  lemma LoweredFieldKey(x: string, default: string)
    requires x == Strip(x) && x != ""
    ensures Lower(Strip(Or(Lower(x), default))) == Lower(x)
  {
    assert Lower(x) != "";
    KeyFoldsCase(x);
  }

  /** The index of a single audio file that parses to `e` is `{e}`. */
  lemma IndexOfOne(file: string, e: Entry)
    requires IsAudioFile(file) && ExtractSongInfo(file) == Some(e)
    ensures Index(Some([file])) == {e}
  {
    forall e' | e' in Index(Some([file]))
      ensures e' == e
    {
      IndexMembership([file], e');
    }
    IndexHasLast([], file, e);
    assert [] + [file] == [file];
  }

  /** The file a song was saved under is an audio file that parses to its sanitized, lower-cased singer and title. */
  lemma OwnFileParse(song: Song)
    requires CmdNaming.SingerRoundTrips(Or(song.singers, CmdNaming.UnknownSinger))
    requires CmdNaming.TitleRoundTrips(Or(song.songName, CmdNaming.UnknownSong))
    requires CmdNaming.ExtRoundTrips(Or(song.ext, CmdNaming.DefaultExt))
    requires Lower("." + CmdNaming.ReplaceIllegal(Or(song.ext, CmdNaming.DefaultExt))) in AudioExtensions
    ensures IsAudioFile(CmdNaming.FormatFilename(song))
    ensures ExtractSongInfo(CmdNaming.FormatFilename(song))
      == Some((Lower(CmdNaming.ReplaceIllegal(Or(song.singers, CmdNaming.UnknownSinger))),
               Lower(CmdNaming.ReplaceIllegal(Or(song.songName, CmdNaming.UnknownSong)))))
  {
    CmdNaming.FormatFilenameRoundTrip(song);
  }

  /** The index of the file a song was saved under holds its sanitized, lower-cased singer and title. */
  lemma OwnFileIndex(song: Song)
    requires CmdNaming.SingerRoundTrips(Or(song.singers, CmdNaming.UnknownSinger))
    requires CmdNaming.TitleRoundTrips(Or(song.songName, CmdNaming.UnknownSong))
    requires CmdNaming.ExtRoundTrips(Or(song.ext, CmdNaming.DefaultExt))
    requires Lower("." + CmdNaming.ReplaceIllegal(Or(song.ext, CmdNaming.DefaultExt))) in AudioExtensions
    ensures Index(Some([CmdNaming.FormatFilename(song)]))
      == {(Lower(CmdNaming.ReplaceIllegal(Or(song.singers, CmdNaming.UnknownSinger))),
           Lower(CmdNaming.ReplaceIllegal(Or(song.songName, CmdNaming.UnknownSong))))}
  {
    OwnFileParse(song);
    IndexOfOne(CmdNaming.FormatFilename(song),
      (Lower(CmdNaming.ReplaceIllegal(Or(song.singers, CmdNaming.UnknownSinger))),
       Lower(CmdNaming.ReplaceIllegal(Or(song.songName, CmdNaming.UnknownSong)))));
  }

  /**
   * The GUI misses a song whose singer holds a character the file name
   * replaces, as the CLI does: it lower-cases the unsanitized fields, while
   * the song's own file indexes the sanitized ones.
   */
  lemma IllegalSingerMissed(song: Song, k: nat)
    requires CmdNaming.SingerRoundTrips(Or(song.singers, CmdNaming.UnknownSinger))
    requires CmdNaming.TitleRoundTrips(Or(song.songName, CmdNaming.UnknownSong))
    requires CmdNaming.ExtRoundTrips(Or(song.ext, CmdNaming.DefaultExt))
    requires k < |Or(song.singers, CmdNaming.UnknownSinger)| && Or(song.singers, CmdNaming.UnknownSinger)[k] in CmdNaming.Illegal
    requires Lower("." + CmdNaming.ReplaceIllegal(Or(song.ext, CmdNaming.DefaultExt))) in AudioExtensions
    ensures !IsSongExists(song, Index(Some([CmdNaming.FormatFilename(song)])))
  {
    OwnFileIndex(song);
    IllegalKeyDiffers(song, k);
  }

  lemma IllegalKeyDiffers(song: Song, k: nat)
    requires CmdNaming.SingerRoundTrips(Or(song.singers, CmdNaming.UnknownSinger))
    requires k < |Or(song.singers, CmdNaming.UnknownSinger)| && Or(song.singers, CmdNaming.UnknownSinger)[k] in CmdNaming.Illegal
    ensures Key(song).0 != Lower(CmdNaming.ReplaceIllegal(Or(song.singers, CmdNaming.UnknownSinger)))
  {
    var a := Or(song.singers, CmdNaming.UnknownSinger);
    StripByKeeps(a, IsSpace);
    assert Key(song).0 == Lower(a);
    assert Lower(a)[k] == a[k];
    assert Lower(CmdNaming.ReplaceIllegal(a))[k] == '_';
  }

  /** The lookup the GUI evidently intends: the key of the singer and title as the file name spells them. */
  predicate IsSongExistsSanitized(song: Song, index: set<Entry>) {
    IsSongExists(CmdNaming.Sanitized(song), index)
  }

  /** With the sanitized lookup, every downloaded song is found by the next scan, illegal characters or not. */
  lemma SanitizedLookupFindsOwnFile(song: Song, names: seq<string>)
    requires CmdNaming.SingerRoundTrips(Or(song.singers, CmdNaming.UnknownSinger))
    requires CmdNaming.TitleRoundTrips(Or(song.songName, CmdNaming.UnknownSong))
    requires CmdNaming.ExtRoundTrips(Or(song.ext, CmdNaming.DefaultExt))
    requires Lower("." + CmdNaming.ReplaceIllegal(Or(song.ext, CmdNaming.DefaultExt))) in AudioExtensions
    ensures IsSongExistsSanitized(song, Index(Some(names + [CmdNaming.FormatFilename(song)])))
  {
    var a := CmdNaming.ReplaceIllegal(Or(song.singers, CmdNaming.UnknownSinger));
    var b := CmdNaming.ReplaceIllegal(Or(song.songName, CmdNaming.UnknownSong));
    var file := CmdNaming.FormatFilename(song);
    OwnFileParse(song);
    IndexHasLast(names, file, (Lower(a), Lower(b)));
    CmdNaming.ReplaceIllegalKeepsShape(Or(song.singers, CmdNaming.UnknownSinger));
    CmdNaming.ReplaceIllegalKeepsShape(Or(song.songName, CmdNaming.UnknownSong));
    StripByKeeps(a, IsSpace);
    StripByKeeps(b, IsSpace);
    CmdNaming.SanitizedFields(song);
    assert Key(CmdNaming.Sanitized(song)) == (Lower(a), Lower(b));
  }

  /** On a singer and title without illegal characters the sanitized lookup gives the code's answer. */
  lemma SanitizedLookupAgrees(song: Song, index: set<Entry>)
    requires forall k :: 0 <= k < |song.singers| ==> song.singers[k] !in CmdNaming.Illegal
    requires forall k :: 0 <= k < |song.songName| ==> song.songName[k] !in CmdNaming.Illegal
    ensures IsSongExistsSanitized(song, index) == IsSongExists(song, index)
  {
    CmdNaming.ReplaceIllegalKeeps(song.singers);
    CmdNaming.ReplaceIllegalKeeps(song.songName);
    assert CmdNaming.Sanitized(song) == song;
  }
}
