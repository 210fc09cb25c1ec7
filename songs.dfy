/**
 * The song record that the `musicdl` search returns (`SongInfo`), as far as
 * the scripts read it, and the nested `raw_data['download']['data']` lookups
 * both scripts repeat.
 */
module Songs {
  import opened Wrappers

  /**
   * A value found in `raw_data`: a string, a dictionary, or any other Python
   * value, which is carried as its `str()` rendering and its truth value.
   */
  datatype Json =
    | Str(s: string)
    | Obj(fields: map<string, Json>)
    | Scalar(text: string, truthy: bool)

  /**
   * A search result. A field that is `None` in Python is the empty string
   * here: every read of these fields goes through `or`, which treats both alike.
   * `rawData` is empty when the attribute is missing, `None` or `{}`.
   */
  datatype Song = Song(
    singers: string,
    songName: string,
    album: string,
    ext: string,
    duration: string,
    fileSize: string,
    source: string,
    rawData: map<string, Json>)

  /** Python's `bool(value)`. */
  predicate Truthy(j: Json) {
    match j
    case Str(s) => s != ""
    case Obj(m) => |m| > 0
    case Scalar(_, t) => t
  }

  /** The text an f-string interpolates for a string or a scalar; a dictionary renders as "". */
  function Render(j: Json): string {
    match j
    case Str(s) => s
    case Obj(_) => ""
    case Scalar(t, _) => t
  }

  /** Python's `text or default` on a string. */
  function Or(text: string, default: string): (r: string)
    ensures r != "" <== default != ""
    ensures text != "" ==> r == text
  {
    if text != "" then text else default
  }

  /**
   * The dictionary reached by `raw_data.get('download', {})` and then
   * `.get('data', {})` when `raw_data` is truthy and each step is a dictionary.
   */
  function DownloadData(raw: map<string, Json>): (r: Option<map<string, Json>>)
    ensures r.Some? ==> |raw| > 0
  {
    if |raw| == 0 then None
    else
      var download := if "download" in raw then raw["download"] else Obj(map[]);
      match download
      case Obj(d) =>
        var data := if "data" in d then d["data"] else Obj(map[]);
        (match data
         case Obj(m) => Some(m)
         case _ => None)
      case _ => None
  }

  /** `raw_data['download']['data'].get(key, default)`, or `default` when the path is not all dictionaries. */
  function DataField(raw: map<string, Json>, key: string, default: Json): Json
  {
    match DownloadData(raw)
    case Some(m) => if key in m then m[key] else default
    case None => default
  }

  /** Whether the quality or size entry is present under `raw_data['download']['data']`. */
  predicate HasDataField(raw: map<string, Json>, key: string) {
    DownloadData(raw).Some? && key in DownloadData(raw).value
  }
}
