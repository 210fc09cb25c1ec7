/**
 * The duplicate check of musicdl_cmd.py: `scan_existing_songs` keeps the
 * parsed case of each file name, and `is_song_exists` accepts a song when
 * either its trimmed and lower-cased pair or its trimmed pair is indexed.
 */
module CmdLibrary {
  import opened Wrappers
  import opened PyStr
  import opened Songs
  import opened StableFilter
  import opened LibraryIndex
  import opened CmdNaming
  import opened SongPattern

  /** One directory entry as the CLI scan reads it. */
  function RecognizeFile(name: string): Option<Entry> {
    Recognize(name, ExtractSongInfo)
  }

  /** The index the CLI scan builds from a listing. */
  function Index(listing: Option<seq<string>>): set<Entry> {
    if listing.Some? then Collect(listing.value, RecognizeFile) else {}
  }

  /** `scan_existing_songs` over a listing. */
  method ScanExistingSongs(listing: Option<seq<string>>) returns (index: set<Entry>)
    ensures index == Index(listing)
    ensures forall e :: e in index ==> e.0 == Strip(e.0) && e.1 == Strip(e.1)
  {
    index := ScanNames(listing, RecognizeFile);
    forall e | e in index
      ensures e.0 == Strip(e.0) && e.1 == Strip(e.1)
    {
      CollectMembership(listing.value, RecognizeFile, e);
    }
  }

  /** An index entry comes from an audio file in the listing that parses to it. */
  lemma IndexMembership(names: seq<string>, e: Entry)
    ensures e in Index(Some(names)) <==>
      exists k :: 0 <= k < |names| && IsAudioFile(names[k]) && ExtractSongInfo(names[k]) == Some(e)
  {
    CollectMembership(names, RecognizeFile, e);
  }

  /** The two keys the CLI looks up for a song. */
  function NormalizedKey(song: Song): Entry {
    (Lower(Strip(Or(song.singers, UnknownSinger))), Lower(Strip(Or(song.songName, UnknownSong))))
  }

  function TrimmedKey(song: Song): Entry {
    (Strip(Or(song.singers, UnknownSinger)), Strip(Or(song.songName, UnknownSong)))
  }

  /** `is_song_exists`. */
  predicate IsSongExists(song: Song, index: set<Entry>) {
    NormalizedKey(song) in index || TrimmedKey(song) in index
  }

  function Duplicate(index: set<Entry>): Song -> bool {
    song => IsSongExists(song, index)
  }

  /** `filter_duplicate_songs`. */
  method FilterDuplicateSongs(songs: seq<Song>, index: set<Entry>) returns (newSongs: seq<Song>, skipped: nat)
    ensures newSongs == KeepNew(songs, Duplicate(index))
    ensures skipped == CountDup(songs, Duplicate(index))
    ensures |newSongs| + skipped == |songs|
    ensures forall s :: s in newSongs ==> s in songs && !IsSongExists(s, index)
    ensures forall k :: 0 <= k < |songs| && !IsSongExists(songs[k], index) ==> songs[k] in newSongs
  {
    newSongs, skipped := FilterBy(songs, Duplicate(index));
    KeepNewCount(songs, Duplicate(index));
    KeepNewComplete(songs, Duplicate(index));
  }

  /** Adding entries to the index can only turn "new" into "exists". */
  lemma IsSongExistsMonotone(song: Song, index: set<Entry>, bigger: set<Entry>)
    requires index <= bigger
    ensures IsSongExists(song, index) ==> IsSongExists(song, bigger)
  {
  }

  /** A bigger index keeps a subsequence of what a smaller one keeps. */
  lemma {:induction false} FilterMonotone(songs: seq<Song>, index: set<Entry>, bigger: set<Entry>)
    requires index <= bigger
    ensures forall s :: s in KeepNew(songs, Duplicate(bigger)) ==> s in KeepNew(songs, Duplicate(index))
    ensures CountDup(songs, Duplicate(index)) <= CountDup(songs, Duplicate(bigger))
  {
    if songs != [] {
      FilterMonotone(songs[..|songs| - 1], index, bigger);
    }
  }

  /** Whitespace before and after a non-empty singer and title, any amount on each side of each, does not change the answer. */
  lemma IsSongExistsIgnoresPadding(song: Song, index: set<Entry>, p1: string, q1: string, p2: string, q2: string)
    requires song.singers != "" && song.songName != ""
    requires forall k :: 0 <= k < |p1| ==> IsSpace(p1[k])
    requires forall k :: 0 <= k < |q1| ==> IsSpace(q1[k])
    requires forall k :: 0 <= k < |p2| ==> IsSpace(p2[k])
    requires forall k :: 0 <= k < |q2| ==> IsSpace(q2[k])
    ensures IsSongExists(song.(singers := p1 + song.singers + q1, songName := p2 + song.songName + q2), index)
      == IsSongExists(song, index)
  {
    StripPadding(p1, song.singers, q1);
    StripPadding(p2, song.songName, q2);
  }

  /** A name whose extension part lower-cases to an audio extension is an audio file. */
  lemma AudioFileByExt(name: string, ext: string)
    requires SplitExt(name).1 == ext && Lower(ext) in AudioExtensions
    ensures IsAudioFile(name)
  {
  }

  /** A listing that ends with an audio file parsing to `e` puts `e` in the index. */
  lemma IndexHasLast(names: seq<string>, file: string, e: Entry)
    requires IsAudioFile(file) && ExtractSongInfo(file) == Some(e)
    ensures e in Index(Some(names + [file]))
  {
    var all := names + [file];
    assert all[|names|] == file;
    IndexMembership(all, e);
  }

  /** The index of a single audio file that parses to `e` is `{e}`. */
  lemma IndexOfOne(file: string, e: Entry)
    requires IsAudioFile(file) && ExtractSongInfo(file) == Some(e)
    ensures Index(Some([file])) == {e}
  {
    forall e' | e' in Index(Some([file]))
      ensures e' == e
    {
      IndexMembership([file], e');
    }
    IndexHasLast([], file, e);
    assert [] + [file] == [file];
  }

  /**
   * A song whose singer, title and extension contain no character
   * `sanitize_filename` replaces, saved under its formatted name with an audio
   * extension, is found again by the next scan.
   */
  lemma DownloadedSongDetected(song: Song, names: seq<string>)
    requires SingerRoundTrips(Or(song.singers, UnknownSinger))
    requires TitleRoundTrips(Or(song.songName, UnknownSong))
    requires ExtRoundTrips(Or(song.ext, DefaultExt))
    requires forall k :: 0 <= k < |Or(song.singers, UnknownSinger)| ==> Or(song.singers, UnknownSinger)[k] !in Illegal
    requires forall k :: 0 <= k < |Or(song.songName, UnknownSong)| ==> Or(song.songName, UnknownSong)[k] !in Illegal
    requires forall k :: 0 <= k < |Or(song.ext, DefaultExt)| ==> Or(song.ext, DefaultExt)[k] !in Illegal
    requires Lower("." + Or(song.ext, DefaultExt)) in AudioExtensions
    ensures IsSongExists(song, Index(Some(names + [FormatFilename(song)])))
  {
    var a, b := Or(song.singers, UnknownSinger), Or(song.songName, UnknownSong);
    FormatFilenameRoundTrip(song);
    ReplaceIllegalKeeps(a);
    ReplaceIllegalKeeps(b);
    ReplaceIllegalKeeps(Or(song.ext, DefaultExt));
    AudioFileByExt(FormatFilename(song), "." + Or(song.ext, DefaultExt));
    IndexHasLast(names, FormatFilename(song), (a, b));
    StripByKeeps(a, IsSpace);
    StripByKeeps(b, IsSpace);
    assert TrimmedKey(song) == (a, b);
  }

  /**
   * A singer holding a character that `sanitize_filename` replaces is never
   * found again: its file name carries '_' at that place, and the CLI
   * compares the unsanitized fields.
   */
  lemma IllegalSingerMissed(song: Song, k: nat)
    requires SingerRoundTrips(Or(song.singers, UnknownSinger))
    requires TitleRoundTrips(Or(song.songName, UnknownSong))
    requires ExtRoundTrips(Or(song.ext, DefaultExt))
    requires k < |Or(song.singers, UnknownSinger)| && Or(song.singers, UnknownSinger)[k] in Illegal
    requires Lower("." + ReplaceIllegal(Or(song.ext, DefaultExt))) in AudioExtensions
    ensures Index(Some([FormatFilename(song)]))
      == {(ReplaceIllegal(Or(song.singers, UnknownSinger)), ReplaceIllegal(Or(song.songName, UnknownSong)))}
    ensures !IsSongExists(song, Index(Some([FormatFilename(song)])))
  {
    OwnFileIndex(song);
    IllegalKeysDiffer(song, k);
    MissedBySingleton(song, (ReplaceIllegal(Or(song.singers, UnknownSinger)), ReplaceIllegal(Or(song.songName, UnknownSong))),
      Index(Some([FormatFilename(song)])));
  }

  /** The index of the file a song was saved under holds its sanitized singer and title. */
  lemma OwnFileIndex(song: Song)
    requires SingerRoundTrips(Or(song.singers, UnknownSinger))
    requires TitleRoundTrips(Or(song.songName, UnknownSong))
    requires ExtRoundTrips(Or(song.ext, DefaultExt))
    requires Lower("." + ReplaceIllegal(Or(song.ext, DefaultExt))) in AudioExtensions
    ensures Index(Some([FormatFilename(song)]))
      == {(ReplaceIllegal(Or(song.singers, UnknownSinger)), ReplaceIllegal(Or(song.songName, UnknownSong)))}
  {
    FormatFilenameRoundTrip(song);
    AudioFileByExt(FormatFilename(song), "." + ReplaceIllegal(Or(song.ext, DefaultExt)));
    IndexOfOne(FormatFilename(song),
      (ReplaceIllegal(Or(song.singers, UnknownSinger)), ReplaceIllegal(Or(song.songName, UnknownSong))));
  }

  lemma IllegalKeysDiffer(song: Song, k: nat)
    requires SingerRoundTrips(Or(song.singers, UnknownSinger))
    requires TitleRoundTrips(Or(song.songName, UnknownSong))
    requires k < |Or(song.singers, UnknownSinger)| && Or(song.singers, UnknownSinger)[k] in Illegal
    ensures var e := (ReplaceIllegal(Or(song.singers, UnknownSinger)), ReplaceIllegal(Or(song.songName, UnknownSong)));
      TrimmedKey(song) != e && NormalizedKey(song) != e
  {
    var a, b := Or(song.singers, UnknownSinger), Or(song.songName, UnknownSong);
    StripByKeeps(a, IsSpace);
    StripByKeeps(b, IsSpace);
    assert ReplaceIllegal(a)[k] == '_';
    assert Lower(a)[k] == a[k];
  }

  /**
   * The CLI index keeps the case of the file name, so a file parsed as
   * `a` / `b` with an upper-case letter in `a` is not matched by a search
   * result that spells the singer and title in lower case.
   */
  lemma MixedCaseFileMissed(file: string, a: string, b: string, song: Song)
    requires IsAudioFile(file) && ExtractSongInfo(file) == Some((a, b))
    requires a != Lower(a)
    requires song.singers == Lower(a) && song.songName == Lower(b)
    ensures Index(Some([file])) == {(a, b)}
    ensures !IsSongExists(song, Index(Some([file])))
  {
    IndexOfOne(file, (a, b));
    LowerKeysDiffer(a, b, song);
    MissedBySingleton(song, (a, b), Index(Some([file])));
  }

  /** An index holding one entry that matches neither key misses the song. */
  lemma MissedBySingleton(song: Song, e: Entry, index: set<Entry>)
    requires index == {e} && TrimmedKey(song) != e && NormalizedKey(song) != e
    ensures !IsSongExists(song, index)
  {
  }

  lemma LowerKeysDiffer(a: string, b: string, song: Song)
    requires a != Lower(a)
    requires song.singers == Lower(a) && song.songName == Lower(b)
    ensures TrimmedKey(song) != (a, b) && NormalizedKey(song) != (a, b)
  {
    assert a != "";
    assert Or(song.singers, UnknownSinger) == Lower(a);
    StripLowerCommute(a);
    LowerIdempotent(Strip(a));
  }

  /** The index with both fields of every entry lower-cased. */
  function LoweredIndex(index: set<Entry>): set<Entry> {
    set e | e in index :: (Lower(e.0), Lower(e.1))
  }

  /**
   * The lookup the comment in `is_song_exists` describes: trim and unify the
   * case of both sides, the index entries as well as the search result.
   */
  predicate IsSongExistsCaseless(song: Song, index: set<Entry>) {
    NormalizedKey(song) in LoweredIndex(index)
  }

  /** The caseless lookup finds the file `MixedCaseFileMissed` misses. */
  lemma CaselessFindsMixedCaseFile(file: string, a: string, b: string, song: Song)
    requires IsAudioFile(file) && ExtractSongInfo(file) == Some((a, b))
    requires a != "" && b != ""
    requires song.singers == Lower(a) && song.songName == Lower(b)
    ensures IsSongExistsCaseless(song, Index(Some([file])))
  {
    IndexOfOne(file, (a, b));
    assert Or(song.singers, UnknownSinger) == Lower(a);
    assert Or(song.songName, UnknownSong) == Lower(b);
    StripLowerCommute(Lower(a));
    StripLowerCommute(Lower(b));
    LowerIdempotent(a);
    LowerIdempotent(b);
    StripLowerCommute(a);
    StripLowerCommute(b);
    assert NormalizedKey(song) == (Lower(a), Lower(b));
  }

  /** On an index already in lower case, the caseless lookup is `is_song_exists`. */
  lemma CaselessAgreesOnLowerIndex(song: Song, index: set<Entry>)
    requires forall e :: e in index ==> Lower(e.0) == e.0 && Lower(e.1) == e.1
    ensures IsSongExistsCaseless(song, index) == IsSongExists(song, index)
  {
    assert LoweredIndex(index) == index by {
      forall e | e in index
        ensures (Lower(e.0), Lower(e.1)) == e
      {
      }
    }
    var t := TrimmedKey(song);
    if t in index {
      assert NormalizedKey(song) == (Lower(t.0), Lower(t.1));
    }
  }

  /**
   * The lookup `is_song_exists` evidently intends: compare the singer and
   * title as the song's file name spells them, so that a song is found from
   * the file it was saved under.
   */
  predicate IsSongExistsSanitized(song: Song, index: set<Entry>) {
    IsSongExists(Sanitized(song), index)
  }

  /** With the sanitized lookup, every downloaded song is found by the next scan, illegal characters or not. */
  lemma SanitizedLookupFindsOwnFile(song: Song, names: seq<string>)
    requires SingerRoundTrips(Or(song.singers, UnknownSinger))
    requires TitleRoundTrips(Or(song.songName, UnknownSong))
    requires ExtRoundTrips(Or(song.ext, DefaultExt))
    requires Lower("." + ReplaceIllegal(Or(song.ext, DefaultExt))) in AudioExtensions
    ensures IsSongExistsSanitized(song, Index(Some(names + [FormatFilename(song)])))
  {
    var a, b := ReplaceIllegal(Or(song.singers, UnknownSinger)), ReplaceIllegal(Or(song.songName, UnknownSong));
    FormatFilenameRoundTrip(song);
    AudioFileByExt(FormatFilename(song), "." + ReplaceIllegal(Or(song.ext, DefaultExt)));
    IndexHasLast(names, FormatFilename(song), (a, b));
    ReplaceIllegalKeepsShape(Or(song.singers, UnknownSinger));
    ReplaceIllegalKeepsShape(Or(song.songName, UnknownSong));
    StripByKeeps(a, IsSpace);
    StripByKeeps(b, IsSpace);
    SanitizedFields(song);
    assert TrimmedKey(Sanitized(song)) == (a, b);
  }

  /** On a singer and title without illegal characters the sanitized lookup gives the code's answer. */
  lemma SanitizedLookupAgrees(song: Song, index: set<Entry>)
    requires forall k :: 0 <= k < |song.singers| ==> song.singers[k] !in Illegal
    requires forall k :: 0 <= k < |song.songName| ==> song.songName[k] !in Illegal
    ensures IsSongExistsSanitized(song, index) == IsSongExists(song, index)
  {
    ReplaceIllegalKeeps(song.singers);
    ReplaceIllegalKeeps(song.songName);
    assert Sanitized(song) == song;
  }
}
