/**
 * The fast-mode patch both scripts apply to the library's link tester:
 * `fast_test` and `fast_probe` answer without any request, and
 * `enable_fast_mode` / `disable_fast_mode` swap them in and out, keeping the
 * library's own pair in two module globals.
 */
module FastMode {
  import opened Wrappers
  import opened PyStr

  /** Which pair of link-tester methods is installed: the library's own or the fast one. */
  datatype Impl = Thorough | Fast

  /** The dictionary `fast_test` returns; `None` entries are `Option`s. */
  datatype TestReport = TestReport(
    ok: bool, status: int, httpMethod: string, finalUrl: string, ctype: string,
    clen: Option<int>, acceptsRange: bool, fmt: Option<string>, reason: string)

  /** The dictionary `fast_probe` returns. */
  datatype ProbeReport = ProbeReport(fileSize: string, ctype: string, ext: string, downloadUrl: string, finalUrl: string)

  /** `fast_test`: every link passes as a reachable MPEG audio file at its own address. */
  function FastTest(url: string): (r: TestReport)
    ensures r.ok && r.status == 200 && r.finalUrl == url && r.ctype == "audio/mpeg"
    ensures r.clen.None? && r.fmt.None?
  {
    TestReport(true, 200, "HEAD", url, "audio/mpeg", None, true, None, "fast mode")
  }

  /** The extension `fast_probe` guesses. */
  function ProbeExt(url: string): string {
    if '?' in url || '.' in url then
      var parts := Split(Split(url, '?')[0], '.');
      parts[|parts| - 1]
    else
      "mp3"
  }

  /** `fast_probe`. */
  function FastProbe(url: string): (r: ProbeReport)
    ensures r.downloadUrl == url && r.finalUrl == url
    ensures r.fileSize == "NULL" && r.ctype == "audio/mpeg"
  {
    ProbeReport("NULL", "audio/mpeg", ProbeExt(url), url, url)
  }

  /** The part of a URL before its first '?', or all of it. */
  function BeforeQuery(url: string): string {
    if '?' in url then url[..IndexOf(url, '?')] else url
  }

  /**
   * The guessed extension is "mp3" for a URL with neither '?' nor '.', and
   * otherwise the text after the last '.' of the part before the first '?'
   * (all of that part when it has no '.'); it never holds '.' or '?'.
   */
  lemma FastProbeExtension(url: string)
    ensures '?' !in url && '.' !in url ==> FastProbe(url).ext == "mp3"
    ensures '?' in url || '.' in url ==> IsLastPiece(BeforeQuery(url), '.', FastProbe(url).ext)
    ensures '.' !in FastProbe(url).ext && '?' !in FastProbe(url).ext
  {
    var ext := FastProbe(url).ext;
    if '?' in url || '.' in url {
      var head := Split(url, '?')[0];
      SplitFirst(url, '?');
      assert head == BeforeQuery(url);
      SplitLast(head, '.');
      assert forall c :: c in ext ==> c in head;
    }
  }

  /** The two globals and the installed pair, as one object. */
  class VerifierSwitch {
    /** `_original_test` / `_original_probe`: set together on the first enable, never cleared. */
    var saved: Option<Impl>
    /** What `AudioLinkTester.test` / `.probe` currently are. */
    var current: Impl

    /** Until the first enable nothing is saved and the library's pair is installed; afterwards the saved pair is the library's. */
    predicate Valid()
      reads this
    {
      (saved.None? ==> current == Thorough) && (saved.Some? ==> saved.value == Thorough)
    }

    constructor()
      ensures Valid()
      ensures saved.None? && current == Thorough
    {
      saved := None;
      current := Thorough;
    }

    /** `enable_fast_mode`: save the installed pair on the first call only, then install the fast pair. */
    method Enable()
      requires Valid()
      modifies this
      ensures Valid()
      ensures saved == (if old(saved).None? then Some(old(current)) else old(saved))
      ensures current == Fast
    {
      if saved.None? {
        saved := Some(current);
      }
      current := Fast;
    }

    /** `disable_fast_mode`: reinstall the saved pair if there is one, otherwise change nothing. */
    method Disable()
      requires Valid()
      modifies this
      ensures Valid()
      ensures saved == old(saved)
      ensures current == (if old(saved).Some? then old(saved).value else old(current))
      ensures current == Thorough
    {
      if saved.Some? {
        current := saved.value;
      }
    }
  }

  /**
   * A run of switches, `true` for enable and `false` for disable, as the GUI
   * issues one per search: the fast pair is installed exactly when the last
   * call was an enable, and the library's pair is saved once any enable ran.
   */
  method RunSwitches(calls: seq<bool>) returns (installed: Impl, saved: Option<Impl>)
    ensures installed == (if calls != [] && calls[|calls| - 1] then Fast else Thorough)
    ensures saved == (if true in calls then Some(Thorough) else None)
  {
    var s := new VerifierSwitch();
    var i := 0;
    while i < |calls|
      invariant 0 <= i <= |calls|
      invariant s.Valid()
      invariant s.current == (if i > 0 && calls[i - 1] then Fast else Thorough)
      invariant s.saved == (if true in calls[..i] then Some(Thorough) else None)
    {
      assert calls[..i + 1] == calls[..i] + [calls[i]];
      if calls[i] {
        s.Enable();
      } else {
        s.Disable();
      }
      i := i + 1;
    }
    assert calls[..i] == calls;
    installed, saved := s.current, s.saved;
  }
}
