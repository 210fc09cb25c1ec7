/**
 * The part of `scan_existing_songs` both scripts share: walk a directory
 * listing, keep the names whose lower-cased extension is an audio extension
 * and that parse as `singer - title`, and collect the parsed pairs. The
 * parser is a parameter: the two scripts use different ones. A listing is
 * `None` when the directory is missing or cannot be listed; both scripts
 * then return an empty index.
 */
module LibraryIndex {
  import opened Wrappers
  import opened PyStr

  type Entry = (string, string)

  const AudioExtensions: set<string> := {".mp3", ".flac", ".wav", ".m4a", ".aac", ".ogg", ".wma", ".ape"}

  predicate IsAudioFile(name: string) {
    Lower(SplitExt(name).1) in AudioExtensions
  }

  /** What the scan records for one directory entry: the parse of an audio file, nothing otherwise. */
  function Recognize(name: string, parse: string -> Option<Entry>): Option<Entry>
  {
    if IsAudioFile(name) then parse(name) else None
  }

  /** The set a scan loop builds over `names`, given what each name contributes. */
  function Collect(names: seq<string>, recognize: string -> Option<Entry>): set<Entry> {
    if names == [] then {}
    else
      var last := recognize(names[|names| - 1]);
      Collect(names[..|names| - 1], recognize) + (if last.Some? then {last.value} else {})
  }

  /** An entry is collected exactly when some name is recognized as it. */
  lemma {:induction false} CollectMembership(names: seq<string>, recognize: string -> Option<Entry>, e: Entry)
    ensures e in Collect(names, recognize) <==> exists k :: 0 <= k < |names| && recognize(names[k]) == Some(e)
  {
    if names != [] {
      var init := names[..|names| - 1];
      CollectMembership(init, recognize, e);
      assert forall k :: 0 <= k < |init| ==> init[k] == names[k];
      if exists k :: 0 <= k < |names| && recognize(names[k]) == Some(e) {
        var k :| 0 <= k < |names| && recognize(names[k]) == Some(e);
        assert k < |init| || k == |names| - 1;
      }
    }
  }

  /** More files never shrink the index. */
  lemma CollectGrows(names: seq<string>, more: seq<string>, recognize: string -> Option<Entry>)
    ensures Collect(names, recognize) <= Collect(names + more, recognize)
  {
    forall e | e in Collect(names, recognize)
      ensures e in Collect(names + more, recognize)
    {
      CollectMembership(names, recognize, e);
      CollectMembership(names + more, recognize, e);
      var k :| 0 <= k < |names| && recognize(names[k]) == Some(e);
      assert (names + more)[k] == names[k];
    }
  }

  /** The scan loop over a listing: `recognize` is the audio test followed by the parse. */
  method ScanNames(listing: Option<seq<string>>, recognize: string -> Option<Entry>) returns (index: set<Entry>)
    ensures listing.None? ==> index == {}
    ensures listing.Some? ==> index == Collect(listing.value, recognize)
  {
    index := {};
    if listing.None? {
      return;
    }
    var names := listing.value;
    var i := 0;
    while i < |names|
      invariant 0 <= i <= |names|
      invariant index == Collect(names[..i], recognize)
    {
      assert names[..i + 1][..i] == names[..i];
      var info := recognize(names[i]);
      if info.Some? {
        index := index + {info.value};
      }
      i := i + 1;
    }
    assert names[..i] == names;
  }
}
