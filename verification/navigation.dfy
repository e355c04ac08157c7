/** The read-only routes of backend/app.py over the video table: the list,
    the per-video info with its `next_id`, and the previous-video lookup
    that inverts the `next_id` chain and wraps around to the last video. */
module Navigation {
  import opened Wrappers
  import opened Seqs
  import opened Strings
  import opened Catalogue
  import opened Http

  /** The JSON object the info and previous-video routes return. */
  datatype VideoInfo = VideoInfo(id: nat, filename: string, url: string, nextId: Option<nat>)

  /** The JSON object `list_videos` returns per video. */
  datatype VideoSummary = VideoSummary(id: nat, filename: string)

  const FileUrlPrefix := "/api/videos/file/"
  const NoPreviousMessage := "No previous video found"
  const NotFoundMessage := "Not Found"

  /** The JSON shape shared by the info and previous-video routes. */
  function Info(v: Video): VideoInfo {
    VideoInfo(v.id, v.filename, FileUrlPrefix + v.filename, v.nextId)
  }

  /** `list_videos`: one summary per video, in id order. */
  function ListVideos(db: seq<Video>): (r: seq<VideoSummary>)
    ensures |r| == |db|
    ensures forall i :: 0 <= i < |db| ==> r[i].id == db[i].id && r[i].filename == db[i].filename
    ensures SortedById(db) ==> forall i, j :: 0 <= i < j < |r| ==> r[i].id < r[j].id
  {
    seq(|db|, i requires 0 <= i < |db| => VideoSummary(db[i].id, db[i].filename))
  }

  /** `get_video_info`: the record with the requested primary key, or 404. */
  function GetVideoInfo(db: seq<Video>, videoId: nat): (r: Result<VideoInfo, HttpError>)
    ensures r.Success? <==> exists i :: 0 <= i < |db| && db[i].id == videoId
    ensures r.Success? ==> r.value.id == videoId
    ensures r.Success? ==> exists i :: 0 <= i < |db| && db[i].id == videoId && r.value == Info(db[i])
    ensures r.Failure? ==> r.error == HttpError(404, NotFoundMessage)
  {
    match Seqs.FindFirst(db, (v: Video) => v.id == videoId)
    case Some(i) => Success(Info(db[i]))
    case None => Failure(HttpError(404, NotFoundMessage))
  }

  /** `get_prev_video`: the first video (in id order) whose `next_id` is the
      requested id; failing that, the first video with no `next_id`; failing
      that, a 404. */
  function GetPrevVideo(db: seq<Video>, videoId: nat): (r: Result<VideoInfo, HttpError>)
    ensures (exists i :: 0 <= i < |db| && db[i].nextId == Some(videoId)) ==>
      exists i :: && 0 <= i < |db| && db[i].nextId == Some(videoId) && r == Success(Info(db[i]))
                  && forall j :: 0 <= j < i ==> db[j].nextId != Some(videoId)
    ensures (forall i :: 0 <= i < |db| ==> db[i].nextId != Some(videoId)) ==>
      (exists i :: 0 <= i < |db| && db[i].nextId == None) ==>
      exists i :: && 0 <= i < |db| && db[i].nextId == None && r == Success(Info(db[i]))
                  && forall j :: 0 <= j < i ==> db[j].nextId.Some?
    ensures r.Failure? <==> forall i :: 0 <= i < |db| ==> db[i].nextId.Some? && db[i].nextId != Some(videoId)
    ensures r.Failure? ==> r.error == HttpError(404, NoPreviousMessage)
  {
    match Seqs.FindFirst(db, (v: Video) => v.nextId == Some(videoId))
    case Some(i) => Success(Info(db[i]))
    case None =>
      match Seqs.FindFirst(db, (v: Video) => v.nextId.None?)
      case Some(j) => Success(Info(db[j]))
      case None => Failure(HttpError(404, NoPreviousMessage))
  }

  /** In a chained table the previous video of every video but the first is
      its predecessor in id order. */
  lemma {:induction false} PrevOfSuccessor(db: seq<Video>, i: nat)
    requires SortedById(db) && Chained(db)
    requires 0 < i < |db|
    ensures GetPrevVideo(db, db[i].id) == Success(Info(db[i - 1]))
  {
    assert db[i - 1].nextId == Some(db[i].id);
    forall j | 0 <= j < i - 1 ensures db[j].nextId != Some(db[i].id) {
      assert db[j].nextId == Some(db[j + 1].id);
    }
    var k :| && 0 <= k < |db| && db[k].nextId == Some(db[i].id)
             && GetPrevVideo(db, db[i].id) == Success(Info(db[k]))
             && forall j :: 0 <= j < k ==> db[j].nextId != Some(db[i].id);
  }

  /** When nothing points at the requested id (the first video, or an id no
      video has), a valid chained table answers with its last video: the
      wrap-around of the previous button. */
  lemma {:induction false} PrevWrapsToLast(db: seq<Video>, videoId: nat)
    requires SortedById(db) && LastUnlinked(db) && Chained(db) && |db| > 0
    requires forall i :: 0 < i < |db| ==> db[i].id != videoId
    ensures GetPrevVideo(db, videoId) == Success(Info(db[|db| - 1]))
  {
    forall i | 0 <= i < |db| ensures db[i].nextId != Some(videoId) {
      if i < |db| - 1 {
        assert db[i].nextId == Some(db[i + 1].id);
      }
    }
    assert db[|db| - 1].nextId == None;
    forall j | 0 <= j < |db| - 1 ensures db[j].nextId.Some? {
      assert db[j].nextId == Some(db[j + 1].id);
    }
    var k :| && 0 <= k < |db| && db[k].nextId == None
             && GetPrevVideo(db, videoId) == Success(Info(db[k]))
             && forall j :: 0 <= j < k ==> db[j].nextId.Some?;
  }

  /** The first video's previous video is the last one. */
  lemma {:induction false} PrevOfFirstIsLast(db: seq<Video>)
    requires SortedById(db) && LastUnlinked(db) && Chained(db) && |db| > 0
    ensures GetPrevVideo(db, db[0].id) == Success(Info(db[|db| - 1]))
  {
    PrevWrapsToLast(db, db[0].id);
  }

  /** Ids are keys: in a sorted table the info route finds exactly the
      record at that position. */
  lemma {:induction false} InfoOfRecord(db: seq<Video>, i: nat)
    requires SortedById(db) && i < |db|
    ensures GetVideoInfo(db, db[i].id) == Success(Info(db[i]))
  {
    forall j | 0 <= j < |db| && j != i ensures db[j].id != db[i].id {
    }
    var k :| 0 <= k < |db| && db[k].id == db[i].id && GetVideoInfo(db, db[i].id) == Success(Info(db[k]));
  }

  /** Following `next_id` from the info route and then asking for the
      previous video returns to where navigation started. */
  lemma {:induction false} NextThenPrev(db: seq<Video>, i: nat)
    requires SortedById(db) && Chained(db)
    requires i + 1 < |db|
    ensures GetVideoInfo(db, db[i].id).Success?
    ensures GetVideoInfo(db, db[i].id).value.nextId == Some(db[i + 1].id)
    ensures GetPrevVideo(db, db[i + 1].id) == GetVideoInfo(db, db[i].id)
  {
    InfoOfRecord(db, i);
    PrevOfSuccessor(db, i + 1);
  }

  /** `update_next_ids` on a sorted table whose last video has no successor
      makes the previous button walk the table backwards: video i goes to
      video i - 1, and the first wraps around to the last. */
  lemma {:induction false} PrevAfterUpdate(db: seq<Video>, i: nat)
    requires SortedById(db) && LastUnlinked(db)
    requires i < |db|
    ensures var r := UpdateNextIds(db);
      GetPrevVideo(r, r[i].id) == Success(Info(if i == 0 then r[|db| - 1] else r[i - 1]))
  {
    var r := UpdateNextIds(db);
    assert SortedById(r) by {
      forall a, b | 0 <= a < b < |r| ensures r[a].id < r[b].id {
        assert r[a].id == db[a].id && r[b].id == db[b].id;
      }
    }
    if i == 0 {
      PrevOfFirstIsLast(r);
    } else {
      PrevOfSuccessor(r, i);
    }
  }

  /** After a scan every `.mp4` name of the listing is in the video list. */
  lemma {:induction false} ListAfterScan(db: seq<Video>, listing: set<string>, order: seq<string>,
                                         folder: string, join: (string, string) -> string, n: string)
    requires Enumerates(order, listing)
    requires n in listing && Strings.EndsWith(n, MediaSuffix)
    ensures var l := ListVideos(Scan(db, listing, order, folder, join));
      exists i :: 0 <= i < |l| && l[i].filename == n
  {
    var r := Scan(db, listing, order, folder, join);
    ScanRecordsExactlyMp4s(db, listing, order, folder, join);
    assert n in Filenames(r);
    var v :| v in r && v.filename == n;
    var i :| 0 <= i < |r| && r[i] == v;
    assert ListVideos(r)[i].filename == n;
  }
}
