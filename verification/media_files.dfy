/** The two file routes of backend/app.py. The filesystem is abstracted:
    `pathExists` is `os.path.exists`, `join` is `os.path.join`, `folder` is
    `MEDIA_FOLDER`, and `listing` is `os.listdir(MEDIA_FOLDER)` in the order
    it returns. The byte delivery itself is Flask's `send_from_directory`,
    represented by the reply naming the file it is asked to send. */
module MediaFiles {
  import opened Wrappers
  import opened Seqs
  import opened Strings
  import opened Http

  const VideoMimetype := "video/mp4"
  const VideoNotFoundMessage := "Video not found"
  const FileNotFoundPrefix := "File not found: "

  /** A `send_from_directory(MEDIA_FOLDER, filename, mimetype=...)` reply;
      `None` lets Flask guess the type from the name. */
  datatype FileReply = SendFile(filename: string, mimetype: Option<string>)

  /** `get_video_file`: the requested path is served only if it exists. */
  function GetVideoFile(folder: string, join: (string, string) -> string,
                        pathExists: string -> bool, filename: string): (r: Result<FileReply, HttpError>)
    ensures r.Success? <==> pathExists(join(folder, filename))
    ensures r.Success? ==> r.value == SendFile(filename, None)
    ensures r.Failure? ==> r.error == HttpError(404, VideoNotFoundMessage)
  {
    if pathExists(join(folder, filename)) then Success(SendFile(filename, None))
    else Failure(HttpError(404, VideoNotFoundMessage))
  }

  /** Case-insensitive equality, Python's `a.lower() == b.lower()` (ASCII). */
  predicate SameIgnoringCase(a: string, b: string) {
    Lower(a) == Lower(b)
  }

  /** `k` is the first listed entry that equals `filename` ignoring case. */
  predicate FirstCaseMatch(listing: seq<string>, filename: string, k: int) {
    && 0 <= k < |listing|
    && SameIgnoringCase(listing[k], filename)
    && forall j :: 0 <= j < k ==> !SameIgnoringCase(listing[j], filename)
  }

  /** The name `get_video` settles on before its second existence check:
      the request itself, or the first case-insensitive match of the
      listing when the request does not exist. */
  function ResolveName(folder: string, join: (string, string) -> string, pathExists: string -> bool,
                       listing: seq<string>, filename: string): (name: string)
    ensures pathExists(join(folder, filename)) ==> name == filename
    ensures !pathExists(join(folder, filename)) && name != filename ==>
      exists k :: FirstCaseMatch(listing, filename, k) && listing[k] == name
    ensures !pathExists(join(folder, filename)) && (exists k :: FirstCaseMatch(listing, filename, k)) ==>
      exists k :: FirstCaseMatch(listing, filename, k) && listing[k] == name
    ensures SameIgnoringCase(name, filename)
  {
    if pathExists(join(folder, filename)) then filename
    else
      match FindFirst(listing, (f: string) => SameIgnoringCase(f, filename))
      case Some(k) => listing[k]
      case None => filename
  }

  /** `get_video`: serve the exact name when it exists, otherwise the first
      listed file equal to it ignoring case, otherwise a 404 naming the name
      it settled on. */
  function GetVideo(folder: string, join: (string, string) -> string, pathExists: string -> bool,
                    listing: seq<string>, filename: string): (r: Result<FileReply, HttpError>)
    ensures pathExists(join(folder, filename)) ==> r == Success(SendFile(filename, Some(VideoMimetype)))
    ensures r.Success? ==>
      && pathExists(join(folder, r.value.filename))
      && SameIgnoringCase(r.value.filename, filename)
      && r.value.mimetype == Some(VideoMimetype)
    ensures r.Success? && r.value.filename != filename ==>
      !pathExists(join(folder, filename)) &&
      exists k :: FirstCaseMatch(listing, filename, k) && listing[k] == r.value.filename
    ensures r.Failure? ==>
      && !pathExists(join(folder, filename))
      && r.error.status == 404
      && (forall k :: FirstCaseMatch(listing, filename, k) ==> !pathExists(join(folder, listing[k])))
    ensures r.Failure? && (forall k :: 0 <= k < |listing| ==> !SameIgnoringCase(listing[k], filename)) ==>
      r.error == HttpError(404, FileNotFoundPrefix + filename)
    ensures r.Failure? ==>
      r.error == HttpError(404, FileNotFoundPrefix + ResolveName(folder, join, pathExists, listing, filename))
    ensures r.Failure? ==> forall k :: FirstCaseMatch(listing, filename, k) ==>
      r.error == HttpError(404, FileNotFoundPrefix + listing[k])
  {
    var name := ResolveName(folder, join, pathExists, listing, filename);
    if pathExists(join(folder, name)) then Success(SendFile(name, Some(VideoMimetype)))
    else Failure(HttpError(404, FileNotFoundPrefix + name))
  }

  /** The file route and the name route agree on an existing exact name:
      both serve that file, and only the name route fixes the mimetype. When
      the file route fails, the name route can only serve a different,
      listed name. */
  lemma FileRoutesAgree(folder: string, join: (string, string) -> string,
                        pathExists: string -> bool, listing: seq<string>, filename: string)
    ensures GetVideoFile(folder, join, pathExists, filename).Success? ==>
      GetVideo(folder, join, pathExists, listing, filename)
        == Success(SendFile(filename, Some(VideoMimetype)))
    ensures (GetVideoFile(folder, join, pathExists, filename).Failure? &&
             GetVideo(folder, join, pathExists, listing, filename).Success?) ==>
      GetVideo(folder, join, pathExists, listing, filename).value.filename != filename
  {
  }

  /** Two requests that differ only in letter case and that both miss the
      exact-name check get the same answer whenever the listing has a
      case-insensitive match. */
  lemma {:induction false} CaseVariantsResolveAlike(folder: string, join: (string, string) -> string,
                                                    pathExists: string -> bool, listing: seq<string>,
                                                    a: string, b: string, k: nat)
    requires SameIgnoringCase(a, b)
    requires !pathExists(join(folder, a)) && !pathExists(join(folder, b))
    requires k < |listing| && SameIgnoringCase(listing[k], a)
    ensures GetVideo(folder, join, pathExists, listing, a) == GetVideo(folder, join, pathExists, listing, b)
  {
    FirstMatchExists(listing, a, k);
    var first :| first <= k && FirstCaseMatch(listing, a, first);
    var na := ResolveName(folder, join, pathExists, listing, a);
    var nb := ResolveName(folder, join, pathExists, listing, b);
    assert FirstCaseMatch(listing, a, first) && FirstCaseMatch(listing, b, first);
    var ka :| FirstCaseMatch(listing, a, ka) && listing[ka] == na;
    var kb :| FirstCaseMatch(listing, b, kb) && listing[kb] == nb;
    FirstCaseMatchUnique(listing, a, ka, first);
    FirstCaseMatchUnique(listing, b, kb, first);
  }

  lemma FirstCaseMatchUnique(listing: seq<string>, filename: string, k1: int, k2: int)
    requires FirstCaseMatch(listing, filename, k1) && FirstCaseMatch(listing, filename, k2)
    ensures k1 == k2
  {
  }

  lemma {:induction false} FirstMatchExists(listing: seq<string>, filename: string, k: nat)
    requires k < |listing| && SameIgnoringCase(listing[k], filename)
    ensures exists first :: first <= k && FirstCaseMatch(listing, filename, first)
    decreases k
  {
    if exists j :: 0 <= j < k && SameIgnoringCase(listing[j], filename) {
      var j :| 0 <= j < k && SameIgnoringCase(listing[j], filename);
      FirstMatchExists(listing, filename, j);
    } else {
      assert FirstCaseMatch(listing, filename, k);
    }
  }

  /** The name `get_video` serves is itself served directly on a new request. */
  lemma ServedNameIsStable(folder: string, join: (string, string) -> string,
                           pathExists: string -> bool, listing: seq<string>, filename: string)
    requires GetVideo(folder, join, pathExists, listing, filename).Success?
    ensures var served := GetVideo(folder, join, pathExists, listing, filename).value.filename;
      GetVideo(folder, join, pathExists, listing, served)
        == GetVideo(folder, join, pathExists, listing, filename)
  {
  }
}
