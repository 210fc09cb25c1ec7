# Musicdl_GUI in Dafny

A Dafny model of the song-handling core of the two Musicdl_GUI front ends: the
command-line script `musicdl_cmd.py` and the Tk window `musicdl_gui.py`. Both
scripts search several music platforms through the `musicdl` library, drop the
results already in the save directory, and download a chosen subset in
parallel. What is modelled:

- **File naming.** `format_filename` builds `singer - title (album) [quality].ext`
  and `sanitize_filename` cleans it. `extract_song_info_from_filename` reads
  such a name back. The regular expression it uses is a hand-written matcher
  (`SongPattern`) that searches in the order Python's backtracking engine does.
- **Library index and duplicate filter**, in both variants.
  - The CLI (`CmdLibrary`) keeps the case parsed from the name. A song matches
    when its trimmed and lower-cased pair, or its trimmed pair, is indexed.
  - The GUI (`GuiLibrary`) lower-cases at parse time and looks up one pair.
  - A directory is an `Option<seq<string>>` listing; `None` means it is
    missing or cannot be read.
- **Fast mode.** `fast_test` and `fast_probe`, and the enable/disable switch
  over the two module globals, modelled as the class
  `FastMode.VerifierSwitch`.
- **Coordinators, run one task after another.**
  - The CLI `parallel_search` and `parallel_download`: one counter bump per
    task, one bucket per platform, one save path per song.
  - The GUI's `MusicDownloaderGui` object: the fields `all_songs`,
    `searching` and `downloading`; `add_platform_results` stamping
    `_global_idx`; `start_search`; the search thread with every queued
    message handled at once; `start_download` with its selection and
    duplicate re-check; and the download thread with its two counters.

Each task's outcome is an input: what the platform search returned or that it
raised, whether a download raised, whether the file existed afterwards. So is
the order in which the search tasks finish, given as a permutation. The GUI's
`format_filename` is a method whose clean-up loop is proved to build exactly
the CLI's name.

Two places where the code falls short of what its own comments say. The
model follows the code and proves each gap.

- **Case in the CLI.** The comment in `is_song_exists` says the lookup is
  normalised by trimming and unifying case (musicdl_cmd.py:153). Only the
  search result is lower-cased, though, and the CLI index keeps the case of
  the file name. A file named with a capital letter therefore does not match
  a result spelled in lower case (`CmdLibrary.MixedCaseFileMissed`). The
  lookup the comment describes, `CmdLibrary.IsSongExistsCaseless`, lower-cases
  the index entries as well. It finds that file
  (`CmdLibrary.CaselessFindsMixedCaseFile`), and it gives the same answer as
  `is_song_exists` whenever the index is already in lower case
  (`CmdLibrary.CaselessAgreesOnLowerIndex`). The GUI
  lower-cases when it parses, and does match it
  (`GuiLibrary.MixedCaseFileFound`).
- **Illegal characters, in both scripts.** `filter_duplicate_songs` is meant
  to drop the songs already in the save directory (musicdl_cmd.py:171,
  musicdl_gui.py:403). Both scripts compare the unsanitized singer and title
  against names parsed from sanitized files. A song whose singer holds one of
  `<>:"/\|?*` is therefore never found again from its own downloaded file
  (`CmdLibrary.IllegalSingerMissed`, `GuiLibrary.IllegalSingerMissed`).
  Without such characters it is found (`CmdLibrary.DownloadedSongDetected`,
  `GuiLibrary.DownloadedSongDetected`).
  - The evidently intended lookup compares the fields as the file name spells
    them (`CmdLibrary.IsSongExistsSanitized`, `GuiLibrary.IsSongExistsSanitized`).
  - It finds every downloaded song (`CmdLibrary.SanitizedLookupFindsOwnFile`,
    `GuiLibrary.SanitizedLookupFindsOwnFile`).
  - It gives the code's answer on songs without such characters
    (`CmdLibrary.SanitizedLookupAgrees`, `GuiLibrary.SanitizedLookupAgrees`).
  - The modelled filters keep the code's lookup.

## Model

| member | source | states |
|---|---|---|
| Songs.Or | musicdl_cmd.py:55-58 | `x or default` keeps a non-empty value and is non-empty whenever the default is |
| Songs.DownloadData | musicdl_cmd.py:61-65 | the nested `raw_data['download']['data']` dictionary exists only when `raw_data` is non-empty |
| PyStr.TrimLeft | musicdl_cmd.py:112 | `lstrip` removes exactly a leading run of dropped characters and stops at a kept one |
| PyStr.TrimRight | musicdl_cmd.py:112 | `rstrip` removes exactly a trailing run of dropped characters and stops at a kept one |
| PyStr.TrimLeftSuffix | musicdl_cmd.py:112 | what `lstrip` leaves is a suffix of its input |
| PyStr.TrimRightPrefix | musicdl_cmd.py:112 | what `rstrip` leaves is a prefix of its input |
| PyStr.StripBy | musicdl_cmd.py:49 | `strip(chars)` yields text that is empty or starts and ends with a kept character |
| PyStr.StripBySubset | musicdl_cmd.py:49 | `strip` adds no character |
| PyStr.StripByKeeps | musicdl_cmd.py:49 | `strip` leaves unchanged text that already starts and ends with a kept character |
| PyStr.StripByIdempotent | musicdl_cmd.py:112-113 | stripping twice equals stripping once |
| PyStr.TrimLeftDropped | musicdl_cmd.py:156 | a prefix of whitespace is swallowed by `lstrip` |
| PyStr.TrimLeftAppend | musicdl_cmd.py:156 | `lstrip` of a concatenation strips the second part only when the first is all whitespace |
| PyStr.TrimRightDropped | musicdl_cmd.py:156 | a suffix of whitespace is swallowed by `rstrip` |
| PyStr.StripPadding | musicdl_cmd.py:156-164 | whitespace padding on either side does not change `strip()` |
| PyStr.Lower | musicdl_cmd.py:156-157 | lower-casing keeps the length |
| PyStr.LowerCharSpace | musicdl_gui.py:397-398 | lower-casing neither creates nor removes whitespace |
| PyStr.LowerIdempotent | musicdl_gui.py:370 | lower-casing twice equals lower-casing once |
| PyStr.StripLowerCommute | musicdl_gui.py:397-398 | `strip().lower()` equals `lower().strip()` |
| PyStr.TrimLeftLower | musicdl_gui.py:397-398 | `lstrip` commutes with lower-casing |
| PyStr.TrimRightLower | musicdl_gui.py:397-398 | `rstrip` commutes with lower-casing |
| PyStr.Replace | musicdl_cmd.py:47 | `str.replace` on one character keeps the length |
| PyStr.IndexOf | musicdl_cmd.py:23 | the position of the first occurrence of a character |
| PyStr.LastIndexOf | musicdl_cmd.py:104 | the position of the last occurrence of a character |
| PyStr.Split | musicdl_cmd.py:23 | `str.split(sep)` yields at least one piece |
| PyStr.SplitFirst | musicdl_cmd.py:23 | `split(c)[0]` is the text before the first `c`, or all of it, and holds no `c` |
| PyStr.SplitLast | musicdl_cmd.py:23 | `split(c)[-1]` is the text after the last `c`, or all of it, and holds no `c` |
| PyStr.SplitLastPiece | musicdl_cmd.py:23 | the last piece is the whole text when there is no separator, and shorter than the text otherwise |
| PyStr.LastAfterSeparator | musicdl_cmd.py:23 | the last-piece facts carry over a leading separator |
| PyStr.LastAfterChar | musicdl_cmd.py:23 | the last-piece facts carry over a leading non-separator |
| PyStr.LastPieceCons | musicdl_cmd.py:23 | the text after the last separator of a suffix that follows a separator is the last piece of the whole |
| PyStr.LastPieceTail | musicdl_cmd.py:23 | a last piece shorter than the tail is also the last piece of the whole text |
| PyStr.SplitExt | musicdl_cmd.py:104 | `os.path.splitext` splits the name into root and extension that concatenate back to it |
| PyStr.SplitExtAt | musicdl_cmd.py:104 | `root + "." + ext` with a dot-free `ext` and a root that is not all dots splits back into exactly those parts |
| SongPattern.SkipSpace | musicdl_cmd.py:110 | `\s*` ends at the first non-space, after only spaces |
| SongPattern.LazyEnd | musicdl_cmd.py:110 | lazy group 2 ends at the first position where the tail matches, with no newline before it; none when no such end exists |
| SongPattern.Group2From | musicdl_cmd.py:110 | the shortest group 2 starting at a given position, or proof that none exists |
| SongPattern.BackOff | musicdl_cmd.py:110 | the greedy `\s*` after the dash gives back characters one at a time; the result is the greatest group-2 start at which group 2 can end, with its shortest end, or proof that no start works |
| SongPattern.AfterGroup1 | musicdl_cmd.py:110 | after a fixed group 1, the greatest group-2 start and then the shortest group 2, or no match |
| SongPattern.SpaceRunBound | musicdl_cmd.py:110 | no whitespace run starting where `\s*` starts ends after the point where it stops |
| SongPattern.MatchFrom | musicdl_cmd.py:110 | lazy group 1: the shortest group 1 from a given length on that leads to a match |
| SongPattern.MatchIndices | musicdl_cmd.py:110 | `re.match` returns the match the backtracking engine finds first, and `None` exactly when no split fits the pattern |
| SongPattern.ShapedAccepts | musicdl_cmd.py:110 | a name shaped `A - B (…` fits the pattern at `A` and `B` |
| SongPattern.ShapedNoEarlierGroup1 | musicdl_cmd.py:110 | on such a name no shorter group 1 fits |
| SongPattern.ShapedNoLaterGroup2Start | musicdl_cmd.py:110 | on such a name group 2 cannot start later |
| SongPattern.ShapedNoEarlierGroup2End | musicdl_cmd.py:110 | on such a name no shorter group 2 fits |
| SongPattern.ShapedMatch | musicdl_cmd.py:110 | on such a name the engine reports exactly group 1 = `A` and group 2 = `B` |
| SongPattern.MatchIndicesUnique | musicdl_cmd.py:110 | the first match is unique, so the matcher returns it |
| LibraryIndex.CollectMembership | musicdl_cmd.py:132-138 | a pair is in the index exactly when some listed name is recognised as it |
| LibraryIndex.CollectGrows | musicdl_cmd.py:132-138 | more files never shrink the index |
| LibraryIndex.ScanNames | musicdl_cmd.py:125-143 | the scan loop builds the collected set; a missing directory gives the empty set |
| StableFilter.KeepNew | musicdl_cmd.py:177-182 | every kept song is an input song that is not a duplicate, and no more songs are kept than given |
| StableFilter.CountDup | musicdl_cmd.py:179 | the skip count is at most the input length |
| StableFilter.FilterBy | musicdl_cmd.py:174-184 | the append/skip loop returns the stable filter and the duplicate count |
| StableFilter.KeepNewCount | musicdl_cmd.py:174-184 | kept plus skipped equals the input length |
| StableFilter.KeepNewConcat | musicdl_cmd.py:177-182 | the filter and the count work piece by piece, which keeps the relative order |
| StableFilter.KeepNewSingle | musicdl_cmd.py:178-182 | one song is kept exactly when it is not a duplicate, and is counted otherwise |
| StableFilter.KeepNewComplete | musicdl_cmd.py:177-182 | no new song is dropped |
| StableFilter.KeepNewAllNew | musicdl_gui.py:406-407 | a list without duplicates passes unchanged, with a count of zero |
| StableFilter.NoneCounted | musicdl_cmd.py:179 | without duplicates the skip count is zero |
| StableFilter.KeepNewNoSkip | musicdl_cmd.py:174-184 | a skip count of zero means the list passed unchanged |
| StableFilter.KeepNewIdempotent | musicdl_cmd.py:170-184 | filtering the kept list again keeps all of it and skips nothing |
| CmdNaming.ReplaceAmong | musicdl_cmd.py:46-47 | replacing a set of characters keeps the length |
| CmdNaming.ReplaceIllegal | musicdl_cmd.py:45-47 | replacing the nine illegal characters keeps the length |
| CmdNaming.DropControl | musicdl_cmd.py:48 | the control filter leaves no character below code 32 and never lengthens the text |
| CmdNaming.SanitizeFilename | musicdl_cmd.py:43-50 | the loop of `replace` calls, the control filter and the strip compute the sanitized name |
| CmdNaming.ReplaceStep | musicdl_cmd.py:46-47 | one more `replace(char, '_')` adds that character to the replaced set |
| CmdNaming.SanitizeNameClean | musicdl_cmd.py:43-50 | a sanitized name holds no illegal and no control character, and neither starts nor ends with a space or a dot |
| CmdNaming.DropControlSubset | musicdl_cmd.py:48 | the control filter adds no character |
| CmdNaming.SanitizeNameIdempotent | musicdl_cmd.py:43-50 | sanitizing twice equals sanitizing once |
| CmdNaming.DropControlKeeps | musicdl_cmd.py:48 | the control filter leaves control-free text alone |
| CmdNaming.DropControlConcat | musicdl_cmd.py:48 | the control filter works piece by piece |
| CmdNaming.ReplaceIllegalConcat | musicdl_cmd.py:46-47 | the replacement works piece by piece |
| CmdNaming.GetSongQuality | musicdl_cmd.py:76-84 | `get_song_quality` is the stored quality when the path holds one, and '未知音质' otherwise |
| CmdNaming.GetSongSize | musicdl_cmd.py:87-95 | `get_song_size` is the stored size when the path holds one, and otherwise `file_size or '未知大小'` |
| CmdNaming.QualityTagAgreesWithGetSongQuality | musicdl_cmd.py:60-71 | the name carries a ` [quality]` tag exactly when a truthy quality is stored, and the tag is that value |
| CmdNaming.ExtractSongInfo | musicdl_cmd.py:98-116 | the parse fails exactly when the root is empty or does not match, and both returned parts are trimmed |
| CmdNaming.ExtractSongInfoNone | musicdl_cmd.py:103-116 | the parse fails exactly when the root is empty or no split of it fits the pattern |
| CmdNaming.TemplateParts | musicdl_cmd.py:55-71 | the template is the defaulted singer, ` - `, the defaulted title, ` (`, album and optional quality, then `.` and the defaulted extension |
| CmdNaming.ReplaceIllegalKeeps | musicdl_cmd.py:46-47 | text without illegal characters is not changed by the replacement |
| CmdNaming.ReplaceIllegalHead | musicdl_cmd.py:46-47 | the replacement leaves the ` - ` and ` (` separators in place |
| CmdNaming.SanitizeThree | musicdl_cmd.py:43-50 | when the replaced outer parts hold no control character and do not end in a blank or dot at the outside, sanitizing `x + y + z` replaces illegal characters everywhere and drops control characters only from the middle |
| CmdNaming.ReplaceIllegalKeepsShape | musicdl_cmd.py:46-47 | writing '_' keeps the conditions for a singer, title and extension to read back |
| CmdNaming.NoControlHead | musicdl_cmd.py:69-71 | the head of the template is control-free when its singer and title are |
| CmdNaming.NoControlDot | musicdl_cmd.py:69-71 | `.ext` is control-free when the extension is |
| CmdNaming.SanitizeTemplate | musicdl_cmd.py:68-73 | the sanitized template is the replaced singer and title around ` - ` and ` (`, the filtered middle, `.` and the replaced extension |
| CmdNaming.FormatFilenameParts | musicdl_cmd.py:53-73 | `format_filename` of a song with a well-formed singer, title and extension, written as its parts |
| CmdNaming.HeadShaped | musicdl_cmd.py:110 | `singer - title (…` has the shape the pattern splits at the singer and the title |
| CmdNaming.ParseBack | musicdl_cmd.py:98-116 | `singer - title (….ext` parses back to `(singer, title)`, and `.ext` is its extension |
| CmdNaming.ExtractFromRoot | musicdl_cmd.py:104-114 | once the root and the match are known, the parse is the stripped groups |
| CmdNaming.FormatFilenameRoundTrip | musicdl_cmd.py:53-116 | the name `format_filename` builds parses back to the singer and title with illegal characters turned into '_', and keeps the extension |
| CmdNaming.SanitizedFields | musicdl_cmd.py:45-58 | defaulting an empty singer or title and replacing its illegal characters give the same text in either order |
| CmdLibrary.ScanExistingSongs | musicdl_cmd.py:119-143 | the scan builds the CLI index, and every entry is trimmed |
| CmdLibrary.IndexMembership | musicdl_cmd.py:132-138 | a pair is indexed exactly when some listed audio file parses to it |
| CmdLibrary.FilterDuplicateSongs | musicdl_cmd.py:170-184 | the kept songs are, in order, exactly the songs `is_song_exists` rejects; the skip count is the rest |
| CmdLibrary.IsSongExistsMonotone | musicdl_cmd.py:146-167 | adding entries to the index can only turn "new" into "exists" |
| CmdLibrary.FilterMonotone | musicdl_cmd.py:170-184 | a bigger index keeps no song a smaller one drops, and skips at least as many |
| CmdLibrary.IsSongExistsIgnoresPadding | musicdl_cmd.py:152-164 | any whitespace before and after a non-empty singer and title, chosen separately for each side of each field, does not change the answer |
| CmdLibrary.AudioFileByExt | musicdl_cmd.py:134-135 | a name whose extension lower-cases to an audio extension is an audio file |
| CmdLibrary.IndexHasLast | musicdl_cmd.py:132-138 | a listed audio file puts its parsed pair in the index |
| CmdLibrary.IndexOfOne | musicdl_cmd.py:132-138 | the index of one parsed audio file is that one pair |
| CmdLibrary.DownloadedSongDetected | musicdl_cmd.py:119-167 | a song without illegal characters, saved under its formatted name with an audio extension, is found by the next scan |
| CmdLibrary.IllegalSingerMissed | musicdl_cmd.py:146-167 | a song whose singer holds an illegal character is not found from its own file, whose index holds the sanitized pair |
| CmdLibrary.OwnFileIndex | musicdl_cmd.py:119-143 | the index of a song's own file holds its sanitized singer and title |
| CmdLibrary.SanitizedLookupFindsOwnFile | musicdl_cmd.py:146-184 | the intended lookup, on the sanitized singer and title, finds every song from the file it was saved under, illegal characters or not |
| CmdLibrary.SanitizedLookupAgrees | musicdl_cmd.py:146-167 | on a singer and title without illegal characters the intended lookup gives the `is_song_exists` answer |
| CmdLibrary.IllegalKeysDiffer | musicdl_cmd.py:152-164 | neither lookup key of such a song equals the sanitized pair |
| CmdLibrary.MixedCaseFileMissed | musicdl_cmd.py:146-167 | a file parsed with an upper-case singer does not match a result spelled in lower case |
| CmdLibrary.MissedBySingleton | musicdl_cmd.py:160-167 | a one-entry index that matches neither key misses the song |
| CmdLibrary.LowerKeysDiffer | musicdl_cmd.py:156-164 | neither lookup key of a lower-cased song equals a pair with an upper-case letter |
| CmdLibrary.CaselessFindsMixedCaseFile | musicdl_cmd.py:152-164 | the lookup that lower-cases the index entries too, as the comment says, finds a file with a non-empty singer and title, whatever case it uses, from a search result spelled as its lower-cased parse |
| CmdLibrary.CaselessAgreesOnLowerIndex | musicdl_cmd.py:152-164 | on an index whose entries are all lower case, the caseless lookup and `is_song_exists` give the same answer |
| CmdCoordinator.ProgressCounter.constructor | musicdl_cmd.py:235 | `completed_count` starts at 0 |
| CmdCoordinator.ProgressCounter.Bump | musicdl_cmd.py:211-212 | one bump adds exactly one |
| CmdCoordinator.SearchSinglePlatform | musicdl_cmd.py:201-222 | one bump on the success path and on the exception path; the result is the songs found or `[]` |
| CmdCoordinator.ArrivalKeys | musicdl_cmd.py:254-256 | the platforms collected in completion order are exactly the platforms searched |
| CmdCoordinator.ParallelSearch | musicdl_cmd.py:225-264 | no platform makes the pool raise; otherwise the counter ends at the number of platforms, there is one bucket per distinct platform, a platform searched once holds its own bucket, and every platform holds the bucket of the last task to finish among those that searched it |
| CmdCoordinator.LastArrivalsStep | musicdl_cmd.py:254-256 | storing one more arrival leaves every platform holding the bucket of the last task to finish among those that searched it |
| CmdCoordinator.JoinPathBasename | musicdl_cmd.py:273 | a name without '/' is the last path component of the joined path |
| CmdCoordinator.SavePathBasename | musicdl_cmd.py:271-273 | every save path lies directly in the save directory under the formatted name |
| CmdCoordinator.SavePaths | musicdl_cmd.py:324-333 | one save path per song |
| CmdCoordinator.SavePathsAt | musicdl_cmd.py:273 | save path `i` belongs to song `i` |
| CmdCoordinator.DownloadSingleSong | musicdl_cmd.py:267-302 | one bump on either path, `True` exactly when the download did not raise, and the save path set |
| CmdCoordinator.ParallelDownload | musicdl_cmd.py:305-338 | nothing happens for an empty list, the pool refuses fewer than one worker, and otherwise the counter ends at the number of songs with every song's save path set in order |
| FastMode.FastTest | musicdl_cmd.py:16-19 | every link passes as a reachable `audio/mpeg` file at its own address, with no length and no format |
| FastMode.FastProbe | musicdl_cmd.py:21-24 | the probe reports download and final URL equal to the input, size 'NULL' and type `audio/mpeg` |
| FastMode.FastProbeExtension | musicdl_cmd.py:23 | the extension is 'mp3' without '?' and '.', otherwise the text after the last '.' of the part before the first '?'; it never holds '.' or '?' |
| FastMode.VerifierSwitch.constructor | musicdl_cmd.py:13-14 | nothing saved, the library's pair installed |
| FastMode.VerifierSwitch.Enable | musicdl_cmd.py:26-33 | the installed pair is saved on the first call only, and the fast pair is installed, so a second call changes nothing |
| FastMode.VerifierSwitch.Disable | musicdl_cmd.py:35-40 | the saved pair is reinstalled after an enable; before one, nothing changes; either way the library's pair is installed |
| FastMode.RunSwitches | musicdl_gui.py:436-439 | after a run of switches the fast pair is installed exactly when the last call enabled it, and the library's pair is saved once any enable ran |
| GuiLibrary.GetSongQuality | musicdl_gui.py:310-318 | the stored quality, or '-' |
| GuiLibrary.GetSongSize | musicdl_gui.py:320-328 | the stored size, or `file_size or '-'` |
| GuiLibrary.QualityAndSizeAgreeWithCli | musicdl_gui.py:310-328 | the GUI reports the CLI's quality and size and differs only in the placeholder |
| GuiLibrary.FormatFilename | musicdl_gui.py:330-357 | the GUI builds exactly the CLI's file name for every song |
| GuiLibrary.ExtractSongInfo | musicdl_gui.py:359-372 | the GUI parse fails exactly when the CLI parse fails, and otherwise is its lower-cased result |
| GuiLibrary.ExtractSongInfoNormalized | musicdl_gui.py:366-370 | parsed pairs are trimmed and lower-case |
| GuiLibrary.IndexMembership | musicdl_gui.py:384-389 | a pair is indexed exactly when some listed audio file parses to it |
| GuiLibrary.ScanExistingSongs | musicdl_gui.py:374-393 | the scan builds the GUI index, and every entry is trimmed and lower-case |
| GuiLibrary.RecognizedNormalized | musicdl_gui.py:385-389 | every recognised entry is trimmed and lower-case |
| GuiLibrary.FilterDuplicateSongs | musicdl_gui.py:402-418 | an empty index returns the input with two zeros; otherwise the stable filter, the skip count and the index size, with kept + skipped = input length |
| GuiLibrary.IsSongExistsMonotone | musicdl_gui.py:395-400 | adding entries can only turn "new" into "exists" |
| GuiLibrary.IsSongExistsIgnoresCase | musicdl_gui.py:395-400 | ASCII case in the singer and title does not change the answer |
| GuiLibrary.KeyFoldsCase | musicdl_gui.py:397-398 | the lookup key of a lower-cased field is the key of the field |
| GuiLibrary.LowerDefault | musicdl_gui.py:397-398 | defaulting an empty field commutes with lower-casing |
| GuiLibrary.IsSongExistsIgnoresPadding | musicdl_gui.py:395-400 | any whitespace before and after a non-empty singer and title, chosen separately for each side of each field, does not change the answer |
| GuiLibrary.IndexHasLast | musicdl_gui.py:384-389 | a listed audio file puts its parsed pair in the index |
| GuiLibrary.IndexOfOne | musicdl_gui.py:384-389 | the index of one parsed audio file is that one pair |
| GuiLibrary.OwnFileParse | musicdl_gui.py:330-372 | a song's own file is an audio file that parses to its sanitized, lower-cased singer and title |
| GuiLibrary.OwnFileIndex | musicdl_gui.py:374-393 | the index of a song's own file is exactly its sanitized, lower-cased singer and title |
| GuiLibrary.IllegalSingerMissed | musicdl_gui.py:395-400 | a song whose singer holds an illegal character is not found from its own file |
| GuiLibrary.IllegalKeyDiffers | musicdl_gui.py:397-398 | the lookup key's singer of such a song differs from the sanitized, lower-cased singer |
| GuiLibrary.SanitizedLookupFindsOwnFile | musicdl_gui.py:395-418 | the intended lookup, on the sanitized singer and title, finds every song from the file it was saved under, illegal characters or not |
| GuiLibrary.SanitizedLookupAgrees | musicdl_gui.py:395-400 | on a singer and title without illegal characters the intended lookup gives the `is_song_exists` answer |
| GuiLibrary.DownloadedSongDetected | musicdl_gui.py:374-400 | a song without illegal characters, saved under its formatted name with an audio extension, is found by the next scan |
| GuiLibrary.MixedCaseFileFound | musicdl_gui.py:359-400 | a result spelled as the lower-cased singer and title of a parsed audio file matches that file, whatever case the file uses |
| GuiLibrary.MixedCaseKey | musicdl_gui.py:397-398 | the key of such a result is the lower-cased parsed pair |
| GuiLibrary.LoweredFieldKey | musicdl_gui.py:397-398 | the lookup key of the lower-cased form of a trimmed non-empty field is that lower-cased form |
| GuiApp.StampAppend | musicdl_gui.py:602-626 | appending a stamped batch keeps every `_global_idx` equal to its position, appends exactly the batch's songs and tags them with the platform |
| GuiApp.ArrivalEvents | musicdl_gui.py:473-483 | one platform message per finished task |
| GuiApp.ArrivalEventsAt | musicdl_gui.py:473-483 | the k-th message names the k-th task to finish, reports k + 1 of all platforms, and carries results exactly when that search returned |
| GuiApp.ShownNext | musicdl_gui.py:533-547 | each platform message appends that platform's songs that are new against the directory as listed when the message arrived, stamped; a failed platform adds nothing |
| GuiApp.ShownRows | musicdl_gui.py:498-547 | after the search the old rows are a prefix, numbering is kept, and every new row is a song of a platform that reported, tagged with it, and new against the directory as listed when that platform's message arrived |
| GuiApp.ShownExtends | musicdl_gui.py:602-626 | the shown rows extend the earlier ones and keep the numbering |
| GuiApp.ShownOrigin | musicdl_gui.py:533-547 | every added row came from one of the platforms that reported |
| GuiApp.StampCameFrom | musicdl_gui.py:533-547 | a row of a platform's batch is a song of that platform, new against the listing its message was filtered by |
| GuiApp.CameFromEarlier | musicdl_gui.py:533-547 | a row from an earlier platform still comes from a reporting platform |
| GuiApp.StampMember | musicdl_gui.py:604-607 | a stamped row carries one of the batch's songs and the batch's platform |
| GuiApp.SelectedRows | musicdl_gui.py:654-659 | the selection keeps only indices in range, one song each, in selection order, and is empty exactly when no index is in range |
| GuiApp.SelectedFromRows | musicdl_gui.py:654-659 | the selection is no longer than the index list, and every selected song is a row's song |
| GuiApp.SelectedNone | musicdl_gui.py:654-659 | the selection is empty exactly when no index is in range |
| GuiApp.SelectedAll | musicdl_gui.py:654-659 | with every index in range, position k holds the song of row `selection[k]` |
| GuiApp.RecheckSplits | musicdl_gui.py:665-686 | the re-check counts every song once; "all exist" means every selected song exists; the download list is exactly the new songs in order |
| GuiApp.SuccessCountBounds | musicdl_gui.py:726-729 | the success count is at most the number of tasks, equals it exactly when every task succeeded, and is 0 exactly when none did |
| GuiApp.FileNames | musicdl_gui.py:709 | one file name per song |
| GuiApp.ProgressEvents | musicdl_gui.py:714-717 | one progress message per task run |
| GuiApp.ProgressEventsAt | musicdl_gui.py:714-717 | the k-th progress message reports k + 1 of all tasks and names the k-th file |
| GuiApp.ProgressEventsStep | musicdl_gui.py:714-717 | one more task appends its progress message |
| GuiApp.MusicDownloaderGui.constructor | musicdl_gui.py:60-76 | an empty list, no search or download running, and the six known platforms |
| GuiApp.MusicDownloaderGui.ClearResults | musicdl_gui.py:289-294 | the list is empty and the flags are unchanged |
| GuiApp.MusicDownloaderGui.AddPlatformResults | musicdl_gui.py:602-629 | the list grows by the batch stamped from its old length; earlier rows are unchanged and every `_global_idx` stays its position |
| GuiApp.MusicDownloaderGui.StartSearch | musicdl_gui.py:420-451 | refuses while searching, for a blank keyword and for no platform, changing nothing; otherwise switches the link tester by mode, clears the list and marks the search running |
| GuiApp.MusicDownloaderGui.SearchSinglePlatform | musicdl_gui.py:453-484 | one bump on either path; the message carries the new count and the results or the error |
| GuiApp.MusicDownloaderGui.HandleSearchEvent | musicdl_gui.py:523-566 | a platform's results are filtered against the save directory as listed at that message and appended; 'done' clears `searching`; no other message changes the list |
| GuiApp.MusicDownloaderGui.RunSearch | musicdl_gui.py:486-521 | a bad search size or no platform gives 'error' then 'done' with the list untouched; otherwise every platform reports once in completion order, the list shows their songs that are new against the directory as re-listed at each message, 'complete' carries the list length, and `searching` ends false |
| GuiApp.MusicDownloaderGui.HandlePlatforms | musicdl_gui.py:494-513 | the worker loop yields the platform messages in completion order and the list they produce, message k filtered against the k-th listing |
| GuiApp.MusicDownloaderGui.HandlePlatform | musicdl_gui.py:512-513 | one finished task adds its message and its songs that are new against the directory as listed then |
| GuiApp.MusicDownloaderGui.SelectSongs | musicdl_gui.py:653-659 | the selection loop computes the selected songs |
| GuiApp.MusicDownloaderGui.StartDownload | musicdl_gui.py:635-695 | refuses while downloading, for an empty selection, for a save directory that cannot be created and when no index is in range; otherwise the re-check decides, and only a started download sets `downloading` |
| GuiApp.MusicDownloaderGui.Recheck | musicdl_gui.py:665-688 | the re-check loop stops when every song exists, stops when the user declines, and otherwise goes on with the new songs or with all of them |
| GuiApp.MusicDownloaderGui.DownloadSingle | musicdl_gui.py:706-734 | one progress bump before the download, reported with its file name; one success bump exactly when the file exists afterwards and the platform client, called only for a known platform, did not raise |
| GuiApp.MusicDownloaderGui.DownloadThread | musicdl_gui.py:697-745 | a thread count that is no number or below one gives the error message; otherwise one progress message per song in counter order, then 'complete' with the success count |
| GuiApp.MusicDownloaderGui.RunTasks | musicdl_gui.py:736-742 | the pool loop yields every progress message and the final success count |
| GuiApp.MusicDownloaderGui.RunTask | musicdl_gui.py:738-740 | one task moves both counters on and appends its progress message |
| GuiApp.MusicDownloaderGui.HandleDownloadEvent | musicdl_gui.py:571-598 | 'complete' and 'error' clear `downloading`; progress changes nothing |

## Left out

- The Tk window: layout, message boxes, the status and count labels, the Treeview and its selection, and `update_ui` polling. Selected platforms, the selection indices and the user's yes/no answer are inputs.
- Threads, `ThreadPoolExecutor`, locks and queues. Tasks run one after another; the search's completion order is an input permutation, and downloads run in list order. Bounded concurrency is not modelled. The GUI queues each 'progress' message after releasing `download_lock` (musicdl_gui.py:714-717), so with a real pool the messages can arrive out of counter order; `GuiApp.ProgressEventsAt` describes the sequential run only.
- The GUI's 'complete' message reads `len(all_songs)` from the worker thread while the window may still be appending. The model handles every message as it is queued, so there is no such race.
- The filesystem: `os.listdir`, `os.path.exists`, `makedirs` and `getsize`. Listings, "file exists" flags and "directory could be created" flags are inputs. A search takes one listing per platform message, since `update_ui` re-reads the save path and re-scans at each (musicdl_gui.py:537-539).
- The `musicdl` library: clients, `search`, `download` and the link tester's own `test`/`probe`. A search outcome, a download outcome and which pair of tester methods is installed stand in for them.
- Floating-point percentages, megabyte sizes, elapsed times and every printed or displayed text.
- `str()` of values that are neither strings nor dictionaries is an input (`Scalar`); a dictionary renders as the empty string.
- `os.path.splitext` is the POSIX one on names without a directory separator.
- `PyStr.Lower`: only ASCII letters are folded.
- The interactive `main()` of musicdl_cmd.py, including its prompts and fallbacks for bad numbers.
- create_icon.py is not part of this model.
- The GUI's `get_selected_platforms` reads Tk check boxes; the selected platform list is an input.
- `int(self.search_size_var.get())` and `int(self.thread_count_var.get())` are modelled only as "is a number" (search) and an `Option<int>` (download).
- The GUI's filtered-away results and the skip counts `update_ui` only displays are discarded.
- `GuiApp.MusicDownloaderGui.DownloadSingle`: does not record `song._save_path`; its value is `CmdCoordinator.SavePath`.
- `CmdCoordinator.ParallelDownload`: discards the tasks' `True`/`False`, as `future.result()` does.
- The 'status' search message only sets a label and is not modelled.
- The list of search results in `parallel_search` is a map keyed by platform. A platform listed twice keeps the bucket of whichever of its tasks finishes last.
