/**
 * The state the musicdl_gui.py window keeps between events: the result list,
 * each row stamped with its platform and position, and the `searching` and
 * `downloading` flags. The search and download threads become loops whose
 * per-task outcomes are inputs; each message a task queues is handled as
 * soon as it is queued.
 */
module GuiApp {
  import opened Wrappers
  import opened PyStr
  import opened Songs
  import opened StableFilter
  import opened FastMode
  import GuiLibrary
  import LibraryIndex
  import CmdNaming
  import CmdCoordinator

  /** A row of `all_songs`: the song with the `_source_platform` and `_global_idx` it was given. */
  datatype Listed = Listed(song: Song, platform: string, globalIdx: nat)

  /** The rows `add_platform_results` appends for a batch, numbered on from `base`. */
  function Stamp(base: nat, platform: string, songs: seq<Song>): seq<Listed> {
    seq(|songs|, k requires 0 <= k < |songs| => Listed(songs[k], platform, base + k))
  }

  /** Every row's `_global_idx` is its position, which is what the table's first column shows. */
  predicate IndexedInOrder(rows: seq<Listed>) {
    forall i :: 0 <= i < |rows| ==> rows[i].globalIdx == i
  }

  /** The songs of a result list, in order. */
  function SongsOf(rows: seq<Listed>): seq<Song> {
    seq(|rows|, k requires 0 <= k < |rows| => rows[k].song)
  }

  /**
   * Appending a batch numbered from the current length keeps every row at
   * its own position, appends exactly the batch's songs and tags them with
   * the platform.
   */
  lemma StampAppend(rows: seq<Listed>, platform: string, songs: seq<Song>)
    ensures IndexedInOrder(rows) ==> IndexedInOrder(rows + Stamp(|rows|, platform, songs))
    ensures SongsOf(rows + Stamp(|rows|, platform, songs)) == SongsOf(rows) + songs
    ensures forall k :: |rows| <= k < |rows| + |songs| ==> (rows + Stamp(|rows|, platform, songs))[k].platform == platform
  {
    var all := rows + Stamp(|rows|, platform, songs);
    assert forall k :: |rows| <= k < |all| ==> all[k] == Listed(songs[k - |rows|], platform, k);
    assert SongsOf(all) == SongsOf(rows) + songs by {
      assert forall k :: 0 <= k < |rows| ==> SongsOf(all)[k] == SongsOf(rows)[k];
      assert forall k :: |rows| <= k < |all| ==> SongsOf(all)[k] == songs[k - |rows|];
    }
  }

  /** Outcome of `start_search`. */
  datatype SearchStart = AlreadySearching | NoKeyword | NoPlatform | SearchStarted

  /** Messages of the search queue, except the free-text status line. */
  datatype SearchEvent =
    | PlatformDone(source: string, results: seq<Song>, completed: nat, total: nat)
    | PlatformError(source: string, completed: nat, total: nat)
    | SearchComplete(songCount: nat)
    | SearchError
    | SearchDone

  /** The message a platform's task queues after its counter bump. */
  function PlatformEvent(source: string, outcome: CmdCoordinator.SearchOutcome, completed: nat, total: nat): SearchEvent {
    match outcome
    case Found(songs) => PlatformDone(source, songs, completed, total)
    case Raised => PlatformError(source, completed, total)
  }

  /** The platform messages of the first `j` tasks to finish. */
  function ArrivalEvents(platforms: seq<string>, outcomes: seq<CmdCoordinator.SearchOutcome>, order: seq<nat>, j: nat)
    : (r: seq<SearchEvent>)
    requires |outcomes| == |platforms| && CmdCoordinator.IsArrivalOrder(order, |platforms|) && j <= |order|
    ensures |r| == j
  {
    if j == 0 then []
    else
      var e := PlatformEvent(platforms[order[j - 1]], outcomes[order[j - 1]], j, |platforms|);
      ArrivalEvents(platforms, outcomes, order, j - 1) + [e]
  }

  /**
   * The `k`-th platform message is the `k`-th task to finish, reports
   * `k + 1` completed out of all platforms, and carries that platform's
   * results when its search returned.
   */
  lemma {:induction false} ArrivalEventsAt(
    platforms: seq<string>, outcomes: seq<CmdCoordinator.SearchOutcome>, order: seq<nat>, j: nat, k: nat)
    requires |outcomes| == |platforms| && CmdCoordinator.IsArrivalOrder(order, |platforms|)
    requires k < j <= |order|
    ensures var e := ArrivalEvents(platforms, outcomes, order, j)[k];
      (e.PlatformDone? || e.PlatformError?) && e.source == platforms[order[k]]
      && e.completed == k + 1 && e.total == |platforms|
      && (e.PlatformDone? <==> outcomes[order[k]].Found?)
      && (e.PlatformDone? ==> e.results == outcomes[order[k]].songs)
  {
    if k < j - 1 {
      ArrivalEventsAt(platforms, outcomes, order, j - 1, k);
    }
  }

  /**
   * The result list after `update_ui` handled message `e`: a platform's
   * results are filtered against `index` and appended; nothing else changes
   * the list.
   */
  function AfterEvent(rows: seq<Listed>, e: SearchEvent, index: set<LibraryIndex.Entry>): seq<Listed> {
    if e.PlatformDone? then rows + Stamp(|rows|, e.source, KeepNew(e.results, GuiLibrary.Duplicate(index))) else rows
  }

  /**
   * The result list after the first `j` platform messages were handled,
   * message `k` against the save directory as listed when it arrived, `listings[k]`.
   */
  function Shown(
    base: seq<Listed>, platforms: seq<string>, outcomes: seq<CmdCoordinator.SearchOutcome>, order: seq<nat>,
    listings: seq<Option<seq<string>>>, j: nat): seq<Listed>
    requires |outcomes| == |platforms| && CmdCoordinator.IsArrivalOrder(order, |platforms|) && |listings| == |platforms| && j <= |order|
  {
    if j == 0 then base
    else
      var idx := order[j - 1];
      AfterEvent(Shown(base, platforms, outcomes, order, listings, j - 1),
        PlatformEvent(platforms[idx], outcomes[idx], j, |platforms|), GuiLibrary.Index(listings[j - 1]))
  }

  /** Each step of `Shown` appends the stamped new songs of the platform that finished (none for a failed one). */
  lemma ShownNext(
    base: seq<Listed>, platforms: seq<string>, outcomes: seq<CmdCoordinator.SearchOutcome>, order: seq<nat>,
    listings: seq<Option<seq<string>>>, j: nat)
    requires |outcomes| == |platforms| && CmdCoordinator.IsArrivalOrder(order, |platforms|) && |listings| == |platforms| && 0 < j <= |order|
    ensures var prev := Shown(base, platforms, outcomes, order, listings, j - 1);
      var idx := order[j - 1];
      Shown(base, platforms, outcomes, order, listings, j)
        == prev + Stamp(|prev|, platforms[idx], KeepNew(CmdCoordinator.Bucket(outcomes[idx]), GuiLibrary.Duplicate(GuiLibrary.Index(listings[j - 1]))))
  {
    var prev := Shown(base, platforms, outcomes, order, listings, j - 1);
    var idx := order[j - 1];
    if outcomes[idx].Raised? {
      assert KeepNew(CmdCoordinator.Bucket(outcomes[idx]), GuiLibrary.Duplicate(GuiLibrary.Index(listings[j - 1]))) == [];
      assert prev + Stamp(|prev|, platforms[idx], []) == prev;
    }
  }

  lemma ShownRows(
    base: seq<Listed>, platforms: seq<string>, outcomes: seq<CmdCoordinator.SearchOutcome>, order: seq<nat>,
    listings: seq<Option<seq<string>>>, j: nat)
    requires |outcomes| == |platforms| && CmdCoordinator.IsArrivalOrder(order, |platforms|) && |listings| == |platforms| && j <= |order|
    ensures var rows := Shown(base, platforms, outcomes, order, listings, j);
      |base| <= |rows| && rows[..|base|] == base
      && (IndexedInOrder(base) ==> IndexedInOrder(rows))
      && forall r :: r in rows[|base|..] ==>
        exists k :: 0 <= k < j && r.platform == platforms[order[k]]
          && r.song in CmdCoordinator.Bucket(outcomes[order[k]]) && !GuiLibrary.IsSongExists(r.song, GuiLibrary.Index(listings[k]))
  {
    ShownExtends(base, platforms, outcomes, order, listings, j);
    ShownOrigin(base, platforms, outcomes, order, listings, j);
  }

  /** The rows shown after `j` messages extend `base` and keep its numbering. */
  lemma {:induction false} ShownExtends(
    base: seq<Listed>, platforms: seq<string>, outcomes: seq<CmdCoordinator.SearchOutcome>, order: seq<nat>,
    listings: seq<Option<seq<string>>>, j: nat)
    requires |outcomes| == |platforms| && CmdCoordinator.IsArrivalOrder(order, |platforms|) && |listings| == |platforms| && j <= |order|
    ensures var rows := Shown(base, platforms, outcomes, order, listings, j);
      |base| <= |rows| && rows[..|base|] == base && (IndexedInOrder(base) ==> IndexedInOrder(rows))
  {
    if j > 0 {
      var prev := Shown(base, platforms, outcomes, order, listings, j - 1);
      ShownExtends(base, platforms, outcomes, order, listings, j - 1);
      ShownNext(base, platforms, outcomes, order, listings, j);
      var idx := order[j - 1];
      var kept := KeepNew(CmdCoordinator.Bucket(outcomes[idx]), GuiLibrary.Duplicate(GuiLibrary.Index(listings[j - 1])));
      var rows := prev + Stamp(|prev|, platforms[idx], kept);
      StampAppend(prev, platforms[idx], kept);
      assert rows[..|base|] == base by {
        assert rows[..|prev|] == prev;
      }
    }
  }

  /**
   * Row `r` is a song found by one of the first `j` platforms to finish,
   * tagged with it, and new against the listing its message was filtered by.
   */
  ghost predicate CameFrom(
    r: Listed, platforms: seq<string>, outcomes: seq<CmdCoordinator.SearchOutcome>, order: seq<nat>,
    listings: seq<Option<seq<string>>>, j: nat)
    requires |outcomes| == |platforms| && CmdCoordinator.IsArrivalOrder(order, |platforms|) && |listings| == |platforms| && j <= |order|
  {
    exists k :: 0 <= k < j && r.platform == platforms[order[k]]
      && r.song in CmdCoordinator.Bucket(outcomes[order[k]]) && !GuiLibrary.IsSongExists(r.song, GuiLibrary.Index(listings[k]))
  }

  /** Every row added after `base` came from one of the platforms that reported. */
  lemma {:induction false} ShownOrigin(
    base: seq<Listed>, platforms: seq<string>, outcomes: seq<CmdCoordinator.SearchOutcome>, order: seq<nat>,
    listings: seq<Option<seq<string>>>, j: nat)
    requires |outcomes| == |platforms| && CmdCoordinator.IsArrivalOrder(order, |platforms|) && |listings| == |platforms| && j <= |order|
    ensures var rows := Shown(base, platforms, outcomes, order, listings, j);
      |base| <= |rows| && forall r :: r in rows[|base|..] ==> CameFrom(r, platforms, outcomes, order, listings, j)
  {
    if j > 0 {
      var prev := Shown(base, platforms, outcomes, order, listings, j - 1);
      ShownOrigin(base, platforms, outcomes, order, listings, j - 1);
      ShownNext(base, platforms, outcomes, order, listings, j);
      var idx := order[j - 1];
      var kept := KeepNew(CmdCoordinator.Bucket(outcomes[idx]), GuiLibrary.Duplicate(GuiLibrary.Index(listings[j - 1])));
      var batch := Stamp(|prev|, platforms[idx], kept);
      var rows := prev + batch;
      assert rows[|base|..] == prev[|base|..] + batch;
      forall r | r in rows[|base|..]
        ensures CameFrom(r, platforms, outcomes, order, listings, j)
      {
        if r in batch {
          StampCameFrom(r, platforms, outcomes, order, listings, j, |prev|);
        } else {
          CameFromEarlier(r, platforms, outcomes, order, listings, j);
        }
      }
    }
  }

  /** A row of the batch appended at step `j` came from the `j`-th platform to finish. */
  lemma StampCameFrom(
    r: Listed, platforms: seq<string>, outcomes: seq<CmdCoordinator.SearchOutcome>, order: seq<nat>,
    listings: seq<Option<seq<string>>>, j: nat, start: nat)
    requires |outcomes| == |platforms| && CmdCoordinator.IsArrivalOrder(order, |platforms|) && |listings| == |platforms| && 0 < j <= |order|
    requires r in Stamp(start, platforms[order[j - 1]],
      KeepNew(CmdCoordinator.Bucket(outcomes[order[j - 1]]), GuiLibrary.Duplicate(GuiLibrary.Index(listings[j - 1]))))
    ensures CameFrom(r, platforms, outcomes, order, listings, j)
  {
    var index := GuiLibrary.Index(listings[j - 1]);
    var kept := KeepNew(CmdCoordinator.Bucket(outcomes[order[j - 1]]), GuiLibrary.Duplicate(index));
    StampMember(start, platforms[order[j - 1]], kept, r);
    assert GuiLibrary.Duplicate(index)(r.song) == GuiLibrary.IsSongExists(r.song, index);
    assert r.song in CmdCoordinator.Bucket(outcomes[order[j - 1]]) && !GuiLibrary.IsSongExists(r.song, index);
  }

  /** A row that came from one of the first `j - 1` platforms came from one of the first `j`. */
  lemma CameFromEarlier(
    r: Listed, platforms: seq<string>, outcomes: seq<CmdCoordinator.SearchOutcome>, order: seq<nat>,
    listings: seq<Option<seq<string>>>, j: nat)
    requires |outcomes| == |platforms| && CmdCoordinator.IsArrivalOrder(order, |platforms|) && |listings| == |platforms| && 0 < j <= |order|
    requires CameFrom(r, platforms, outcomes, order, listings, j - 1)
    ensures CameFrom(r, platforms, outcomes, order, listings, j)
  {
    var k :| 0 <= k < j - 1 && r.platform == platforms[order[k]]
      && r.song in CmdCoordinator.Bucket(outcomes[order[k]]) && !GuiLibrary.IsSongExists(r.song, GuiLibrary.Index(listings[k]));
  }

  /** A stamped row carries one of the batch's songs and the batch's platform. */
  lemma StampMember(base: nat, platform: string, songs: seq<Song>, r: Listed)
    requires r in Stamp(base, platform, songs)
    ensures r.song in songs && r.platform == platform
  {
    var m :| 0 <= m < |songs| && Stamp(base, platform, songs)[m] == r;
    assert songs[m] == r.song;
  }

  /** Outcome of `start_download`'s checks. */
  datatype DownloadStart =
    | AlreadyDownloading
    | NothingSelected
    | DirError
    | NotFound
    | AllExist(skipped: nat)
    | Declined(skipped: nat, remaining: nat)
    | DownloadStarted(songs: seq<Song>)

  /** The songs behind the selected rows' index column, skipping an index out of range. */
  function Selected(rows: seq<Listed>, selection: seq<int>): seq<Song> {
    if selection == [] then []
    else
      var idx := selection[|selection| - 1];
      Selected(rows, selection[..|selection| - 1]) + (if 0 <= idx < |rows| then [rows[idx].song] else [])
  }

  /**
   * The selection keeps one song per index in range, in selection order:
   * nothing when no index is in range, and the row's song at each position
   * when every index is.
   */
  lemma {:induction false} SelectedRows(rows: seq<Listed>, selection: seq<int>)
    ensures |Selected(rows, selection)| <= |selection|
    ensures forall s :: s in Selected(rows, selection) ==> s in SongsOf(rows)
    ensures Selected(rows, selection) == [] <==> forall k :: 0 <= k < |selection| ==> !(0 <= selection[k] < |rows|)
    ensures (forall k :: 0 <= k < |selection| ==> 0 <= selection[k] < |rows|) ==>
      |Selected(rows, selection)| == |selection|
      && forall k :: 0 <= k < |selection| ==> Selected(rows, selection)[k] == rows[selection[k]].song
  {
    SelectedFromRows(rows, selection);
    SelectedNone(rows, selection);
    if forall k :: 0 <= k < |selection| ==> 0 <= selection[k] < |rows| {
      SelectedAll(rows, selection);
    }
  }

  lemma {:induction false} SelectedFromRows(rows: seq<Listed>, selection: seq<int>)
    ensures |Selected(rows, selection)| <= |selection|
    ensures forall s :: s in Selected(rows, selection) ==> s in SongsOf(rows)
  {
    if selection != [] {
      var idx := selection[|selection| - 1];
      SelectedFromRows(rows, selection[..|selection| - 1]);
      if 0 <= idx < |rows| {
        assert SongsOf(rows)[idx] == rows[idx].song;
      }
    }
  }

  lemma {:induction false} SelectedNone(rows: seq<Listed>, selection: seq<int>)
    ensures Selected(rows, selection) == [] <==> forall k :: 0 <= k < |selection| ==> !(0 <= selection[k] < |rows|)
  {
    if selection != [] {
      var init := selection[..|selection| - 1];
      SelectedNone(rows, init);
      assert forall k :: 0 <= k < |init| ==> init[k] == selection[k];
    }
  }

  lemma {:induction false} SelectedAll(rows: seq<Listed>, selection: seq<int>)
    requires forall k :: 0 <= k < |selection| ==> 0 <= selection[k] < |rows|
    ensures |Selected(rows, selection)| == |selection|
    ensures forall k :: 0 <= k < |selection| ==> Selected(rows, selection)[k] == rows[selection[k]].song
  {
    if selection != [] {
      var init := selection[..|selection| - 1];
      assert forall k :: 0 <= k < |init| ==> init[k] == selection[k];
      SelectedAll(rows, init);
    }
  }

  /**
   * What the re-check decides for a non-empty selection: stop when every
   * song exists, ask before dropping the existing ones, else go on with all.
   */
  function RecheckOutcome(chosen: seq<Song>, index: set<LibraryIndex.Entry>, confirm: bool): DownloadStart {
    var dup := GuiLibrary.Duplicate(index);
    var skipped := CountDup(chosen, dup);
    if skipped > 0 && KeepNew(chosen, dup) == [] then AllExist(skipped)
    else if skipped > 0 && !confirm then Declined(skipped, |KeepNew(chosen, dup)|)
    else if skipped > 0 then DownloadStarted(KeepNew(chosen, dup))
    else DownloadStarted(chosen)
  }

  /**
   * The re-check splits the selection into new and existing songs: every
   * song is counted once, the download list holds exactly the selected songs
   * the index lacks, in order, and "all exist" means every selected song exists.
   */
  lemma RecheckSplits(chosen: seq<Song>, index: set<LibraryIndex.Entry>, confirm: bool)
    ensures var r := RecheckOutcome(chosen, index, confirm);
      (r.AllExist? ==> r.skipped == |chosen| && forall k :: 0 <= k < |chosen| ==> GuiLibrary.IsSongExists(chosen[k], index))
      && (r.Declined? ==> r.skipped + r.remaining == |chosen| && r.skipped > 0 && r.remaining > 0 && !confirm)
      && (r.DownloadStarted? ==>
        r.songs == KeepNew(chosen, GuiLibrary.Duplicate(index))
        && |r.songs| + CountDup(chosen, GuiLibrary.Duplicate(index)) == |chosen|)
      && (r.AllExist? || r.Declined? || r.DownloadStarted?)
  {
    var dup := GuiLibrary.Duplicate(index);
    KeepNewCount(chosen, dup);
    KeepNewComplete(chosen, dup);
    if CountDup(chosen, dup) == 0 {
      KeepNewNoSkip(chosen, dup);
    }
  }

  /** Messages of the download queue. */
  datatype DownloadEvent =
    | Progress(current: nat, total: nat, filename: string)
    | DownloadComplete(successCount: nat, total: nat)
    | DownloadError

  /** What happened to one song's download: whether the client call raised, and whether the file then existed. */
  datatype Attempt = Attempt(raised: bool, fileExists: bool)

  /** The keys of `all_sources`: only songs from these platforms are handed to a client. */
  const KnownSources: set<string> := {
    "KugouMusicClient", "NeteaseMusicClient", "QQMusicClient",
    "KuwoMusicClient", "MiguMusicClient", "QianqianMusicClient"}

  /**
   * A download counts as a success when the file exists afterwards and no
   * client call raised; only a song from one of the `known` platforms is
   * handed to a client.
   */
  predicate Succeeded(known: set<string>, song: Song, a: Attempt) {
    a.fileExists && !(song.source in known && a.raised)
  }

  /** The value of `success_count` once the first `n` tasks ran. */
  function SuccessCount(known: set<string>, songs: seq<Song>, attempts: seq<Attempt>, n: nat): nat
    requires |attempts| == |songs| && n <= |songs|
  {
    if n == 0 then 0
    else SuccessCount(known, songs, attempts, n - 1) + (if Succeeded(known, songs[n - 1], attempts[n - 1]) then 1 else 0)
  }

  /**
   * The success count of `n` tasks is at most `n`; it is `n` exactly when
   * every one of them succeeded and 0 exactly when none did.
   */
  lemma {:induction false} SuccessCountBounds(known: set<string>, songs: seq<Song>, attempts: seq<Attempt>, n: nat)
    requires |attempts| == |songs| && n <= |songs|
    ensures SuccessCount(known, songs, attempts, n) <= n
    ensures SuccessCount(known, songs, attempts, n) == n <==> forall k :: 0 <= k < n ==> Succeeded(known, songs[k], attempts[k])
    ensures SuccessCount(known, songs, attempts, n) == 0 <==> forall k :: 0 <= k < n ==> !Succeeded(known, songs[k], attempts[k])
  {
    if n > 0 {
      SuccessCountBounds(known, songs, attempts, n - 1);
    }
  }

  /** The file name each song is saved under, in list order. */
  function FileNames(songs: seq<Song>): (r: seq<string>)
    ensures |r| == |songs|
  {
    seq(|songs|, k requires 0 <= k < |songs| => CmdNaming.FormatFilename(songs[k]))
  }

  /**
   * The progress messages of the first `n` download tasks, in the order they
   * bump the counter, for tasks whose file names are `names`.
   */
  function ProgressEvents(names: seq<string>, n: nat): (r: seq<DownloadEvent>)
    requires n <= |names|
    ensures |r| == n
  {
    if n == 0 then [] else ProgressEvents(names, n - 1) + [Progress(n, |names|, names[n - 1])]
  }

  /** The `k`-th progress message reports `k + 1` of all tasks and names the `k`-th file. */
  lemma {:induction false} ProgressEventsAt(names: seq<string>, n: nat, k: nat)
    requires k < n <= |names|
    ensures ProgressEvents(names, n)[k] == Progress(k + 1, |names|, names[k])
  {
    if k < n - 1 {
      ProgressEventsAt(names, n - 1, k);
    }
  }

  /** One more task appends its progress message. */
  lemma ProgressEventsStep(songs: seq<Song>, n: nat, e: DownloadEvent)
    requires n < |songs| && e == Progress(n + 1, |songs|, CmdNaming.FormatFilename(songs[n]))
    ensures ProgressEvents(FileNames(songs), n) + [e] == ProgressEvents(FileNames(songs), n + 1)
  {
    assert FileNames(songs)[n] == CmdNaming.FormatFilename(songs[n]);
  }

  /** The window's state. */
  class MusicDownloaderGui {
    /** `all_songs`. */
    var allSongs: seq<Listed>
    var searching: bool
    var downloading: bool
    /** The keys of `all_sources`. */
    const allSources: set<string>

    predicate Valid()
      reads this
    {
      IndexedInOrder(allSongs)
    }

    constructor()
      ensures Valid()
      ensures allSongs == [] && !searching && !downloading
      ensures allSources == KnownSources
    {
      allSources := KnownSources;
      allSongs := [];
      searching := false;
      downloading := false;
    }

    /** `clear_results`. */
    method ClearResults()
      modifies this
      ensures Valid()
      ensures allSongs == []
      ensures searching == old(searching) && downloading == old(downloading)
    {
      allSongs := [];
    }

    /** `add_platform_results`: stamp each song with the platform and the list's current length, then append it. */
    method AddPlatformResults(platform: string, songs: seq<Song>)
      requires Valid()
      modifies this
      ensures Valid()
      ensures allSongs == old(allSongs) + Stamp(|old(allSongs)|, platform, songs)
      ensures searching == old(searching) && downloading == old(downloading)
    {
      ghost var base := allSongs;
      var i := 0;
      while i < |songs|
        invariant 0 <= i <= |songs|
        invariant allSongs == base + Stamp(|base|, platform, songs[..i])
        invariant Valid()
        invariant searching == old(searching) && downloading == old(downloading)
      {
        var idx := |allSongs|;
        allSongs := allSongs + [Listed(songs[i], platform, idx)];
        assert Stamp(|base|, platform, songs[..i + 1]) == Stamp(|base|, platform, songs[..i]) + [Listed(songs[i], platform, idx)];
        i := i + 1;
      }
    }

    /**
     * `start_search`: refuse while a search runs, for a blank keyword or for
     * no platform; otherwise switch the link tester, clear the list and mark
     * the search as running.
     */
    method StartSearch(keyword: string, selected: seq<string>, fastMode: bool, switch: VerifierSwitch)
      returns (r: SearchStart)
      requires Valid() && switch.Valid()
      modifies this, switch
      ensures Valid() && switch.Valid()
      ensures r == (if old(searching) then AlreadySearching
        else if Strip(keyword) == "" then NoKeyword
        else if selected == [] then NoPlatform
        else SearchStarted)
      ensures r.SearchStarted? ==> allSongs == [] && searching && switch.current == (if fastMode then Fast else Thorough)
      ensures !r.SearchStarted? ==>
        allSongs == old(allSongs) && searching == old(searching)
        && switch.saved == old(switch.saved) && switch.current == old(switch.current)
      ensures downloading == old(downloading)
    {
      if searching {
        return AlreadySearching;
      }
      if Strip(keyword) == "" {
        return NoKeyword;
      }
      if selected == [] {
        return NoPlatform;
      }
      if fastMode {
        switch.Enable();
      } else {
        switch.Disable();
      }
      ClearResults();
      searching := true;
      r := SearchStarted;
    }

    /** `search_single_platform`: one bump on either path, then the message with the new count. */
    method SearchSinglePlatform(counter: CmdCoordinator.ProgressCounter, source: string,
      outcome: CmdCoordinator.SearchOutcome, total: nat)
      returns (event: SearchEvent, name: string, results: seq<Song>)
      modifies counter
      ensures counter.count == old(counter.count) + 1
      ensures event == PlatformEvent(source, outcome, counter.count, total)
      ensures name == source && results == CmdCoordinator.Bucket(outcome)
    {
      counter.Bump();
      event := PlatformEvent(source, outcome, counter.count, total);
      name, results := source, CmdCoordinator.Bucket(outcome);
    }

    /**
     * The search half of `update_ui`: a platform's results are filtered
     * against the save directory and shown at once; the last message
     * re-enables searching.
     */
    method HandleSearchEvent(e: SearchEvent, listing: Option<seq<string>>)
      requires Valid()
      modifies this
      ensures Valid()
      ensures allSongs == AfterEvent(old(allSongs), e, GuiLibrary.Index(listing))
      ensures searching == (if e.SearchDone? then false else old(searching))
      ensures downloading == old(downloading)
    {
      match e
      case PlatformDone(source, results, _, _) =>
        var filtered, _, _ := GuiLibrary.FilterDuplicateSongs(results, listing);
        AddPlatformResults(source, filtered);
      case SearchDone =>
        searching := false;
      case _ =>
    }

    /**
     * `search_thread` with the window handling each message as it is queued.
     * A search size that is not a number, or no platform (which the pool
     * refuses), ends in an error message; otherwise every platform reports
     * once with the running count, the list shows each platform's new songs
     * in arrival order, and the completion message carries the list's length.
     * `listings[k]` is the save directory as `update_ui` lists it when the
     * `k`-th platform message arrives: it re-reads the path and re-scans.
     */
    method RunSearch(platforms: seq<string>, sizeIsNumber: bool, outcomes: seq<CmdCoordinator.SearchOutcome>,
      order: seq<nat>, listings: seq<Option<seq<string>>>)
      returns (events: seq<SearchEvent>)
      requires Valid()
      requires |outcomes| == |platforms| && CmdCoordinator.IsArrivalOrder(order, |platforms|) && |listings| == |platforms|
      modifies this
      ensures Valid() && !searching && downloading == old(downloading)
      ensures !sizeIsNumber || platforms == [] ==> allSongs == old(allSongs) && events == [SearchError, SearchDone]
      ensures sizeIsNumber && platforms != [] ==>
        allSongs == Shown(old(allSongs), platforms, outcomes, order, listings, |platforms|)
        && events == ArrivalEvents(platforms, outcomes, order, |platforms|) + [SearchComplete(|allSongs|), SearchDone]
    {
      if !sizeIsNumber || platforms == [] {
        events := [SearchError];
        searching := false;
        HandleSearchEvent(SearchDone, None);
        return events + [SearchDone];
      }
      events := HandlePlatforms(platforms, outcomes, order, listings);
      var complete := SearchComplete(|allSongs|);
      events := events + [complete];
      HandleSearchEvent(complete, None);
      searching := false;
      events := events + [SearchDone];
      HandleSearchEvent(SearchDone, None);
    }

    /**
     * The worker half of `search_thread` with the window handling each
     * message as it is queued: the platforms report in the order their
     * tasks finish, each with the running count, and message `k` is
     * filtered against `listings[k]`.
     */
    method HandlePlatforms(platforms: seq<string>, outcomes: seq<CmdCoordinator.SearchOutcome>,
      order: seq<nat>, listings: seq<Option<seq<string>>>)
      returns (events: seq<SearchEvent>)
      requires Valid()
      requires |outcomes| == |platforms| && CmdCoordinator.IsArrivalOrder(order, |platforms|) && |listings| == |platforms|
      modifies this
      ensures Valid() && searching == old(searching) && downloading == old(downloading)
      ensures allSongs == Shown(old(allSongs), platforms, outcomes, order, listings, |platforms|)
      ensures events == ArrivalEvents(platforms, outcomes, order, |platforms|)
    {
      var total := |platforms|;
      var counter := new CmdCoordinator.ProgressCounter();
      ghost var base := allSongs;
      events := [];
      var j := 0;
      while j < total
        invariant 0 <= j <= total
        invariant counter.count == j
        invariant Valid() && searching == old(searching) && downloading == old(downloading)
        invariant events == ArrivalEvents(platforms, outcomes, order, j)
        invariant allSongs == Shown(base, platforms, outcomes, order, listings, j)
      {
        events := HandlePlatform(counter, platforms, outcomes, order, listings, base, j, events);
        j := j + 1;
      }
    }

    /**
     * The task that finishes `j`-th: its message is queued and handled
     * against the directory as listed then, and the list grows by its new songs.
     */
    method HandlePlatform(counter: CmdCoordinator.ProgressCounter, platforms: seq<string>,
      outcomes: seq<CmdCoordinator.SearchOutcome>, order: seq<nat>, listings: seq<Option<seq<string>>>,
      ghost base: seq<Listed>, j: nat, events: seq<SearchEvent>)
      returns (next: seq<SearchEvent>)
      requires Valid()
      requires |outcomes| == |platforms| && CmdCoordinator.IsArrivalOrder(order, |platforms|) && |listings| == |platforms|
      requires j < |platforms|
      requires counter.count == j && events == ArrivalEvents(platforms, outcomes, order, j)
      requires allSongs == Shown(base, platforms, outcomes, order, listings, j)
      modifies this, counter
      ensures Valid() && searching == old(searching) && downloading == old(downloading)
      ensures counter.count == j + 1 && next == ArrivalEvents(platforms, outcomes, order, j + 1)
      ensures allSongs == Shown(base, platforms, outcomes, order, listings, j + 1)
    {
      var idx := order[j];
      var event, _, _ := SearchSinglePlatform(counter, platforms[idx], outcomes[idx], |platforms|);
      next := events + [event];
      HandleSearchEvent(event, listings[j]);
    }

    /** The selection loop of `start_download`. */
    method SelectSongs(selection: seq<int>) returns (chosen: seq<Song>)
      ensures chosen == Selected(allSongs, selection)
    {
      chosen := [];
      var i := 0;
      while i < |selection|
        invariant 0 <= i <= |selection|
        invariant chosen == Selected(allSongs, selection[..i])
      {
        assert selection[..i + 1][..i] == selection[..i];
        var idx := selection[i];
        if 0 <= idx < |allSongs| {
          chosen := chosen + [allSongs[idx].song];
        }
        i := i + 1;
      }
      assert selection[..i] == selection;
    }

    /**
     * `start_download`: refuse while a download runs, for an empty
     * selection, for a save directory that cannot be created, or when no
     * selected index is in range; otherwise re-check the selection against
     * the save directory and mark the download as running if it starts.
     */
    method StartDownload(selection: seq<int>, dirReady: bool, listing: Option<seq<string>>, confirm: bool)
      returns (r: DownloadStart)
      requires Valid()
      modifies this
      ensures Valid() && allSongs == old(allSongs) && searching == old(searching)
      ensures downloading == (old(downloading) || r.DownloadStarted?)
      ensures r == (if old(downloading) then AlreadyDownloading
        else if selection == [] then NothingSelected
        else if !dirReady then DirError
        else if Selected(allSongs, selection) == [] then NotFound
        else RecheckOutcome(Selected(allSongs, selection), GuiLibrary.Index(listing), confirm))
    {
      if downloading {
        return AlreadyDownloading;
      }
      if selection == [] {
        return NothingSelected;
      }
      if !dirReady {
        return DirError;
      }
      var chosen := SelectSongs(selection);
      if chosen == [] {
        return NotFound;
      }
      r := Recheck(chosen, listing, confirm);
      if r.DownloadStarted? {
        downloading := true;
      }
    }

    /** The re-check loop of `start_download` and what it decides. */
    method Recheck(chosen: seq<Song>, listing: Option<seq<string>>, confirm: bool) returns (r: DownloadStart)
      ensures r == RecheckOutcome(chosen, GuiLibrary.Index(listing), confirm)
    {
      var existing := GuiLibrary.ScanExistingSongs(listing);
      var newSongs, skipped := FilterBy(chosen, GuiLibrary.Duplicate(existing));
      if skipped > 0 {
        if newSongs == [] {
          return AllExist(skipped);
        }
        if !confirm {
          return Declined(skipped, |newSongs|);
        }
        return DownloadStarted(newSongs);
      }
      return DownloadStarted(chosen);
    }

    /**
     * `download_single`: name the file, bump the shared counter and report
     * it, then download and bump the success counter if the file is there.
     * The save path it sets is `CmdCoordinator.SavePath`; its check for the
     * file is the `fileExists` input.
     */
    method DownloadSingle(counter: CmdCoordinator.ProgressCounter, successes: CmdCoordinator.ProgressCounter,
      song: Song, saveDir: string, attempt: Attempt, total: nat)
      returns (event: DownloadEvent)
      requires counter != successes
      modifies counter, successes
      ensures counter.count == old(counter.count) + 1
      ensures successes.count == old(successes.count) + (if Succeeded(allSources, song, attempt) then 1 else 0)
      ensures event == Progress(counter.count, total, CmdNaming.FormatFilename(song))
    {
      var filename := GuiLibrary.FormatFilename(song);
      counter.Bump();
      event := Progress(counter.count, total, filename);
      if song.source in allSources && attempt.raised {
        return;
      }
      if attempt.fileExists {
        successes.Bump();
      }
    }

    /**
     * `download_thread`: a thread count that is not a number, or below one,
     * ends in an error message; otherwise one progress message per song, in
     * the order the tasks bump the counter, and the completion message with
     * the success count.
     */
    method DownloadThread(songs: seq<Song>, saveDir: string, threadCount: Option<int>, attempts: seq<Attempt>)
      returns (events: seq<DownloadEvent>)
      requires |attempts| == |songs|
      ensures threadCount.None? || threadCount.value <= 0 ==> events == [DownloadError]
      ensures threadCount.Some? && threadCount.value > 0 ==>
        events == ProgressEvents(FileNames(songs), |songs|) + [DownloadComplete(SuccessCount(allSources, songs, attempts, |songs|), |songs|)]
    {
      if threadCount.None? || threadCount.value <= 0 {
        return [DownloadError];
      }
      var progress, succeeded := RunTasks(songs, saveDir, attempts);
      events := progress + [DownloadComplete(succeeded, |songs|)];
    }

    /**
     * The pool of `download_thread` running `download_single` once per song,
     * one task after another: the progress messages in counter order and
     * the final `success_count`.
     */
    method RunTasks(songs: seq<Song>, saveDir: string, attempts: seq<Attempt>)
      returns (events: seq<DownloadEvent>, succeeded: nat)
      requires |attempts| == |songs|
      ensures events == ProgressEvents(FileNames(songs), |songs|)
      ensures succeeded == SuccessCount(allSources, songs, attempts, |songs|)
    {
      var total := |songs|;
      var counter := new CmdCoordinator.ProgressCounter();
      var successes := new CmdCoordinator.ProgressCounter();
      events := [];
      var i := 0;
      while i < total
        invariant 0 <= i <= total
        invariant counter.count == i
        invariant events == ProgressEvents(FileNames(songs), i)
        invariant successes.count == SuccessCount(allSources, songs, attempts, i)
      {
        events := RunTask(counter, successes, songs, saveDir, attempts, i, events);
        i := i + 1;
      }
      succeeded := successes.count;
    }

    /** Task `i` of the pool: its progress message joins the others and the counters move on by it. */
    method RunTask(counter: CmdCoordinator.ProgressCounter, successes: CmdCoordinator.ProgressCounter,
      songs: seq<Song>, saveDir: string, attempts: seq<Attempt>, i: nat, events: seq<DownloadEvent>)
      returns (next: seq<DownloadEvent>)
      requires counter != successes && |attempts| == |songs| && i < |songs|
      requires counter.count == i && successes.count == SuccessCount(allSources, songs, attempts, i)
      requires events == ProgressEvents(FileNames(songs), i)
      modifies counter, successes
      ensures counter.count == i + 1 && successes.count == SuccessCount(allSources, songs, attempts, i + 1)
      ensures next == ProgressEvents(FileNames(songs), i + 1)
    {
      var event := DownloadSingle(counter, successes, songs[i], saveDir, attempts[i], |songs|);
      ProgressEventsStep(songs, i, event);
      next := events + [event];
    }

    /** The download half of `update_ui`: the completion or error message re-enables downloading. */
    method HandleDownloadEvent(e: DownloadEvent)
      requires Valid()
      modifies this
      ensures Valid()
      ensures downloading == (if e.Progress? then old(downloading) else false)
      ensures allSongs == old(allSongs) && searching == old(searching)
    {
      if !e.Progress? {
        downloading := false;
      }
    }
  }
}
