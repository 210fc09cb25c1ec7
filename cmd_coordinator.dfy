/**
 * The search and download coordinators of musicdl_cmd.py, with the thread
 * pool replaced by a loop. Each task's outcome (what the library call
 * returned, or that it raised) is an input, and so is the order in which
 * the search tasks finish.
 */
module CmdCoordinator {
  import opened Wrappers
  import opened PyStr
  import opened Songs
  import opened CmdNaming

  /** The shared `completed_count` cell. */
  class ProgressCounter {
    var count: nat

    constructor()
      ensures count == 0
    {
      count := 0;
    }

    /** `completed_count[0] += 1` under the lock. */
    method Bump()
      modifies this
      ensures count == old(count) + 1
    {
      count := count + 1;
    }
  }

  /** What a platform's `search` call did. */
  datatype SearchOutcome = Found(songs: seq<Song>) | Raised

  /** The bucket a search task hands back: the songs found, or `[]` for a failed platform. */
  function Bucket(o: SearchOutcome): seq<Song> {
    if o.Found? then o.songs else []
  }

  /** `search_single_platform`: one bump on either path, and the bucket. */
  method SearchSinglePlatform(counter: ProgressCounter, source: string, outcome: SearchOutcome)
    returns (name: string, result: seq<Song>)
    modifies counter
    ensures counter.count == old(counter.count) + 1
    ensures name == source && result == Bucket(outcome)
  {
    counter.Bump();
    name, result := source, Bucket(outcome);
  }

  /** `order` lists every task index once: the order in which the futures complete. */
  predicate IsArrivalOrder(order: seq<nat>, n: nat) {
    |order| == n && (forall k :: 0 <= k < n ==> order[k] < n) && (forall i :: 0 <= i < n ==> i in order)
  }

  /** No other task searches the same platform. */
  predicate OccursOnce(sources: seq<string>, i: nat)
    requires i < |sources|
  {
    forall j :: 0 <= j < |sources| && sources[j] == sources[i] ==> j == i
  }

  /** The platforms the tasks report, taken in arrival order, are all the platforms. */
  lemma ArrivalKeys(sources: seq<string>, order: seq<nat>)
    requires IsArrivalOrder(order, |sources|)
    ensures (set k | 0 <= k < |order| :: sources[order[k]]) == set s | s in sources
  {
    forall s | s in sources
      ensures s in set k | 0 <= k < |order| :: sources[order[k]]
    {
      var i :| 0 <= i < |sources| && sources[i] == s;
      assert i in order;
      var k :| 0 <= k < |order| && order[k] == i;
      assert sources[order[k]] == s;
    }
  }

  datatype SearchReport = SearchReport(completed: nat, results: map<string, seq<Song>>)

  /**
   * Each platform in `results` holds the bucket of the last of the first `j`
   * arrivals that searched it, as repeated `results[source_name] = result`
   * assignments leave it.
   */
  predicate LastArrivals(results: map<string, seq<Song>>, sources: seq<string>, outcomes: seq<SearchOutcome>,
                         order: seq<nat>, j: nat)
    requires |outcomes| == |sources| && j <= |order| && forall k :: 0 <= k < |order| ==> order[k] < |sources|
  {
    forall s :: s in results ==>
      exists k :: 0 <= k < j && sources[order[k]] == s && results[s] == Bucket(outcomes[order[k]]) &&
        forall k' :: k < k' < j ==> sources[order[k']] != s
  }

  /** Storing arrival `j` keeps every other platform's last bucket and makes `j` its platform's last. */
  lemma LastArrivalsStep(results: map<string, seq<Song>>, sources: seq<string>, outcomes: seq<SearchOutcome>,
                         order: seq<nat>, j: nat)
    requires |outcomes| == |sources| && j < |order| && forall k :: 0 <= k < |order| ==> order[k] < |sources|
    requires LastArrivals(results, sources, outcomes, order, j)
    ensures LastArrivals(results[sources[order[j]] := Bucket(outcomes[order[j]])], sources, outcomes, order, j + 1)
  {
    var name := sources[order[j]];
    var next := results[name := Bucket(outcomes[order[j]])];
    forall s | s in next
      ensures exists k :: 0 <= k < j + 1 && sources[order[k]] == s && next[s] == Bucket(outcomes[order[k]]) &&
                forall k' :: k < k' < j + 1 ==> sources[order[k']] != s
    {
      if s != name {
        var k :| 0 <= k < j && sources[order[k]] == s && results[s] == Bucket(outcomes[order[k]]) &&
          forall k' :: k < k' < j ==> sources[order[k']] != s;
        assert next[s] == results[s];
      }
    }
  }

  /**
   * `parallel_search`. `min(len(sources), 10)` workers means an empty source
   * list makes the pool raise, which is `None` here.
   */
  method ParallelSearch(sources: seq<string>, outcomes: seq<SearchOutcome>, order: seq<nat>)
    returns (r: Option<SearchReport>)
    requires |outcomes| == |sources| && IsArrivalOrder(order, |sources|)
    ensures r.None? <==> |sources| == 0
    ensures r.Some? ==> r.value.completed == |sources|
    ensures r.Some? ==> r.value.results.Keys == set s | s in sources
    ensures r.Some? ==> forall i :: 0 <= i < |sources| && OccursOnce(sources, i) ==>
      r.value.results[sources[i]] == Bucket(outcomes[i])
    ensures r.Some? ==> forall s :: s in r.value.results ==>
      exists i :: 0 <= i < |sources| && sources[i] == s && r.value.results[s] == Bucket(outcomes[i])
    ensures r.Some? ==> LastArrivals(r.value.results, sources, outcomes, order, |order|)
  {
    if |sources| == 0 {
      return None;
    }
    var counter := new ProgressCounter();
    var results: map<string, seq<Song>> := map[];
    var j := 0;
    while j < |order|
      invariant 0 <= j <= |order|
      invariant counter.count == j
      invariant results.Keys == set k | 0 <= k < j :: sources[order[k]]
      invariant forall i :: 0 <= i < |sources| && OccursOnce(sources, i) && i in order[..j] ==>
        sources[i] in results && results[sources[i]] == Bucket(outcomes[i])
      invariant forall s :: s in results ==>
        exists i :: 0 <= i < |sources| && sources[i] == s && results[s] == Bucket(outcomes[i])
      invariant LastArrivals(results, sources, outcomes, order, j)
    {
      var idx := order[j];
      LastArrivalsStep(results, sources, outcomes, order, j);
      var name, bucket := SearchSinglePlatform(counter, sources[idx], outcomes[idx]);
      results := results[name := bucket];
      assert order[..j + 1] == order[..j] + [idx];
      j := j + 1;
    }
    assert order[..j] == order;
    ArrivalKeys(sources, order);
    return Some(SearchReport(counter.count, results));
  }

  /** Whether a song's `download` call returned or raised. */
  datatype DownloadOutcome = Saved | Failed

  /** `os.path.join(directory, name)` on POSIX. */
  function JoinPath(directory: string, name: string): string {
    if name != [] && name[0] == '/' then name
    else if directory == [] || directory[|directory| - 1] == '/' then directory + name
    else directory + "/" + name
  }

  /** A name without '/' is the last component of the joined path: what `os.path.basename` gives back. */
  lemma JoinPathBasename(directory: string, name: string)
    requires '/' !in name
    ensures IsLastPiece(JoinPath(directory, name), '/', name)
  {
    var p := JoinPath(directory, name);
    assert p[|p| - |name|..] == name;
  }

  /** Every saved file lies directly in the save directory under its formatted name. */
  lemma SavePathBasename(directory: string, song: Song)
    ensures IsLastPiece(SavePath(directory, song), '/', FormatFilename(song))
  {
    SanitizeNameClean(FilenameTemplate(song));
    var name := FormatFilename(song);
    assert '/' !in name by {
      assert forall k :: 0 <= k < |name| ==> name[k] != '/';
    }
    JoinPathBasename(directory, name);
  }

  /** Where `download_single_song` tells the library to save a song. */
  function SavePath(saveDir: string, song: Song): string {
    JoinPath(saveDir, FormatFilename(song))
  }

  /** The save paths of a list of songs, in order. */
  function SavePaths(saveDir: string, songs: seq<Song>): (r: seq<string>)
    ensures |r| == |songs|
  {
    if songs == [] then [] else SavePaths(saveDir, songs[..|songs| - 1]) + [SavePath(saveDir, songs[|songs| - 1])]
  }

  /** Entry `i` of the list is the save path of song `i`. */
  lemma {:induction false} SavePathsAt(saveDir: string, songs: seq<Song>, i: nat)
    requires i < |songs|
    ensures SavePaths(saveDir, songs)[i] == SavePath(saveDir, songs[i])
  {
    if i < |songs| - 1 {
      SavePathsAt(saveDir, songs[..|songs| - 1], i);
    }
  }

  /** `download_single_song`: the save path, one bump on either path, and `True` unless the download raised. */
  method DownloadSingleSong(counter: ProgressCounter, song: Song, saveDir: string, outcome: DownloadOutcome)
    returns (ok: bool, savePath: string)
    modifies counter
    ensures counter.count == old(counter.count) + 1
    ensures ok <==> outcome == Saved
    ensures savePath == SavePath(saveDir, song)
  {
    var filename := FormatFilename(song);
    savePath := JoinPath(saveDir, filename);
    counter.Bump();
    ok := outcome == Saved;
  }

  datatype DownloadReport = DownloadReport(completed: nat, savePaths: seq<string>)

  /** What `parallel_download` did: nothing for an empty list, a pool error for fewer than one worker, or a run. */
  datatype DownloadRun = NothingToDo | PoolRejected | Ran(report: DownloadReport)

  /**
   * `parallel_download`, one task after another in list order. The tasks'
   * `True`/`False` results are discarded, as `future.result()` discards them;
   * what remains is the counter and each song's `_save_path`.
   */
  method ParallelDownload(songs: seq<Song>, saveDir: string, threadCount: int, outcomes: seq<DownloadOutcome>)
    returns (r: DownloadRun)
    requires |outcomes| == |songs|
    ensures songs == [] <==> r.NothingToDo?
    ensures r.PoolRejected? <==> songs != [] && threadCount <= 0
    ensures r.Ran? ==> r.report.completed == |songs|
    ensures r.Ran? ==> r.report.savePaths == SavePaths(saveDir, songs)
  {
    if songs == [] {
      return NothingToDo;
    }
    if threadCount <= 0 {
      return PoolRejected;
    }
    var counter := new ProgressCounter();
    var paths: seq<string> := [];
    var i := 0;
    while i < |songs|
      invariant 0 <= i <= |songs|
      invariant counter.count == i
      invariant paths == SavePaths(saveDir, songs[..i])
    {
      var _, path := DownloadSingleSong(counter, songs[i], saveDir, outcomes[i]);
      assert songs[..i + 1][..i] == songs[..i];
      paths := paths + [path];
      i := i + 1;
    }
    assert songs[..i] == songs;
    return Ran(DownloadReport(counter.count, paths));
  }
}
