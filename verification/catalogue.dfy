/** The video table of backend/app.py and the logic that writes it: the
    media-folder scan and the `next_id` chain. The table is a sequence of records in increasing id order,
    the order `Video.query.order_by(Video.id)` returns. */
module Catalogue {
  import opened Wrappers
  import opened Seqs
  import opened Strings

  /** One row of the `video` table; `created_at` carries no logic and is omitted. */
  datatype Video = Video(id: nat, filename: string, filepath: string, nextId: Option<nat>)

  const MediaSuffix := ".mp4"

  /** The sequence is the table in id order: ids strictly increase. */
  predicate SortedById(db: seq<Video>) {
    forall i, j :: 0 <= i < j < |db| ==> db[i].id < db[j].id
  }

  /** The `unique=True` constraint on `filename`. */
  predicate UniqueFilenames(db: seq<Video>) {
    forall i, j :: 0 <= i < j < |db| ==> db[i].filename != db[j].filename
  }

  /** The last video in id order has no successor. */
  predicate LastUnlinked(db: seq<Video>) {
    |db| > 0 ==> db[|db| - 1].nextId == None
  }

  /** The state every scan leaves the table in (and the empty table has). */
  predicate Valid(db: seq<Video>) {
    SortedById(db) && UniqueFilenames(db) && LastUnlinked(db)
  }

  /** Every video but the last points at its successor in id order. */
  predicate Chained(db: seq<Video>) {
    forall i :: 0 <= i < |db| - 1 ==> db[i].nextId == Some(db[i + 1].id)
  }

  function Filenames(db: seq<Video>): set<string> {
    set v | v in db :: v.filename
  }

  /** The largest id in the table, 0 when it is empty. */
  function MaxId(db: seq<Video>): (r: nat)
    ensures forall i :: 0 <= i < |db| ==> db[i].id <= r
    ensures |db| > 0 ==> exists i :: 0 <= i < |db| && db[i].id == r
  {
    if |db| == 0 then 0
    else
      var m := MaxId(db[..|db| - 1]);
      if db[|db| - 1].id > m then db[|db| - 1].id else m
  }

  // ---------------------------------------------------------------------
  // update_next_ids

  /** `update_next_ids`: every video except the last gets its successor's id
      as `next_id`; the last one, and every other field, is left alone. */
  function UpdateNextIds(db: seq<Video>): (r: seq<Video>)
    ensures |r| == |db|
    ensures forall i {:trigger r[i]} :: 0 <= i < |db| ==>
      r[i].id == db[i].id && r[i].filename == db[i].filename && r[i].filepath == db[i].filepath
    ensures forall i {:trigger r[i]} :: 0 <= i < |db| - 1 ==> r[i].nextId == Some(db[i + 1].id)
    ensures |db| > 0 ==> r[|db| - 1] == db[|db| - 1]
    ensures Chained(r)
  {
    if |db| <= 1 then db
    else [db[0].(nextId := Some(db[1].id))] + UpdateNextIds(db[1..])
  }

  /** A table that is already chained is a fixed point of `update_next_ids`. */
  lemma {:induction false} UpdateNextIdsKeepsChained(db: seq<Video>)
    requires Chained(db)
    ensures UpdateNextIds(db) == db
  {
    var r := UpdateNextIds(db);
    forall i | 0 <= i < |db|
      ensures r[i] == db[i]
    {
      if i < |db| - 1 {
        assert db[i].nextId == Some(db[i + 1].id);
      }
    }
  }

  /** Running `update_next_ids` twice changes nothing the second time. */
  lemma {:induction false} UpdateNextIdsIdempotent(db: seq<Video>)
    ensures UpdateNextIds(UpdateNextIds(db)) == UpdateNextIds(db)
  {
    UpdateNextIdsKeepsChained(UpdateNextIds(db));
  }

  /** With zero or one video there is no pair to link. */
  lemma {:induction false} UpdateNextIdsShort(db: seq<Video>)
    requires |db| <= 1
    ensures UpdateNextIds(db) == db
  {
  }

  // ---------------------------------------------------------------------
  // scan_media_folder

  /** The listing `order` enumerates the set `listing` exactly once each:
      the iteration order of `set(os.listdir(...))`, which Python leaves
      unspecified. */
  predicate Enumerates(order: seq<string>, listing: set<string>) {
    && NoDups(order)
    && (forall n :: n in order ==> n in listing)
    && (forall n :: n in listing ==> n in order)
  }

  /** The names the scan loop adds, in iteration order: those ending in
      `.mp4` that are not yet a recorded filename. */
  function SelectNew(order: seq<string>, known: set<string>): (r: seq<string>)
    ensures forall n :: n in r <==> n in order && EndsWith(n, MediaSuffix) && n !in known
    ensures NoDups(order) ==> NoDups(r)
  {
    if |order| == 0 then []
    else
      var rest := SelectNew(order[1..], known);
      assert forall n :: n in order[1..] ==> n in order;
      if EndsWith(order[0], MediaSuffix) && order[0] !in known then
        assert NoDups(order) ==> order[0] !in order[1..];
        [order[0]] + rest
      else rest
  }

  /** The rows inserted for `names`, with consecutive fresh ids from `firstId`
      and a `next_id` column left NULL. */
  function NewRecords(names: seq<string>, firstId: nat, folder: string,
                      join: (string, string) -> string): (r: seq<Video>)
    ensures |r| == |names|
    ensures forall k :: 0 <= k < |names| ==>
      r[k] == Video(firstId + k, names[k], join(folder, names[k]), None)
  {
    seq(|names|, k requires 0 <= k < |names| =>
      Video(firstId + k, names[k], join(folder, names[k]), None))
  }

  /** A record the scan inserted: a listed `.mp4` name that was not yet
      recorded, stored under `join(folder, name)` with an id above every
      existing one. */
  predicate ScannedRecord(v: Video, db: seq<Video>, listing: set<string>, folder: string,
                          join: (string, string) -> string) {
    && v.filename in listing
    && EndsWith(v.filename, MediaSuffix)
    && v.filename !in Filenames(db)
    && v.filepath == join(folder, v.filename)
    && v.id > MaxId(db)
  }

  /** `scan_media_folder`: insert a record for every new `.mp4` name of the
      listing, then rethread the `next_id` chain. `join` is `os.path.join`
      and `folder` is `MEDIA_FOLDER`. */
  function Scan(db: seq<Video>, listing: set<string>, order: seq<string>,
                folder: string, join: (string, string) -> string): (r: seq<Video>)
    requires Enumerates(order, listing)
    ensures |r| >= |db|
    ensures Chained(r)
  {
    UpdateNextIds(db + NewRecords(SelectNew(order, Filenames(db)), MaxId(db) + 1, folder, join))
  }

  /** The scan never removes, renumbers, renames or moves a recorded video:
      the old records keep their position, id, filename and path. */
  lemma {:induction false} ScanKeepsExisting(db: seq<Video>, listing: set<string>, order: seq<string>,
                                             folder: string, join: (string, string) -> string)
    requires Enumerates(order, listing)
    ensures var r := Scan(db, listing, order, folder, join);
      forall i :: 0 <= i < |db| ==>
        r[i].id == db[i].id && r[i].filename == db[i].filename && r[i].filepath == db[i].filepath
  {
    var added := NewRecords(SelectNew(order, Filenames(db)), MaxId(db) + 1, folder, join);
    var r := UpdateNextIds(db + added);
    forall i | 0 <= i < |db|
      ensures r[i].id == db[i].id && r[i].filename == db[i].filename && r[i].filepath == db[i].filepath
    {
      assert (db + added)[i] == db[i];
    }
  }

  /** Every record past the old ones is a new `.mp4` name of the listing,
      stored under `join(folder, name)` with a fresh id. */
  lemma {:induction false} ScanAddsNew(db: seq<Video>, listing: set<string>, order: seq<string>,
                                       folder: string, join: (string, string) -> string)
    requires Enumerates(order, listing)
    ensures var r := Scan(db, listing, order, folder, join);
      forall i :: |db| <= i < |r| ==> ScannedRecord(r[i], db, listing, folder, join)
  {
    var added := NewRecords(SelectNew(order, Filenames(db)), MaxId(db) + 1, folder, join);
    forall i | |db| <= i < |db| + |added|
      ensures ScannedRecord(UpdateNextIds(db + added)[i], db, listing, folder, join)
    {
      AddedRecord(db, added, order, Filenames(db), MaxId(db) + 1, listing, folder, join, i);
    }
  }

  /** The scan's recorded filenames are the old ones plus every listed `.mp4`
      name: nothing else is added and nothing is removed. */
  lemma {:induction false} ScanRecordsExactlyMp4s(db: seq<Video>, listing: set<string>, order: seq<string>,
                               folder: string, join: (string, string) -> string)
    requires Enumerates(order, listing)
    ensures Filenames(Scan(db, listing, order, folder, join))
         == Filenames(db) + (set n | n in listing && EndsWith(n, MediaSuffix))
  {
    var added := NewRecords(SelectNew(order, Filenames(db)), MaxId(db) + 1, folder, join);
    ScanFilenames(db, listing, order, added, folder, join);
    SameFilenames(UpdateNextIds(db + added), db + added);
  }

  lemma {:induction false} AddedRecord(db: seq<Video>, added: seq<Video>, order: seq<string>, known: set<string>,
                    firstId: nat, listing: set<string>, folder: string,
                    join: (string, string) -> string, i: nat)
    requires forall n :: n in order ==> n in listing
    requires added == NewRecords(SelectNew(order, known), firstId, folder, join)
    requires |db| <= i < |db| + |added|
    ensures var v := UpdateNextIds(db + added)[i];
      && v.filename in listing && EndsWith(v.filename, MediaSuffix) && v.filename !in known
      && v.filepath == join(folder, v.filename) && v.id == firstId + (i - |db|)
  {
    var names := SelectNew(order, known);
    var k := i - |db|;
    assert (db + added)[i] == added[k];
    assert names[k] in names;
  }

  lemma {:induction false} SameFilenames(a: seq<Video>, b: seq<Video>)
    requires |a| == |b|
    requires forall i :: 0 <= i < |a| ==> a[i].filename == b[i].filename
    ensures Filenames(a) == Filenames(b)
  {
    forall n | n in Filenames(a) ensures n in Filenames(b) {
      var v :| v in a && v.filename == n;
      var i :| 0 <= i < |a| && a[i] == v;
      assert b[i] in b;
    }
    forall n | n in Filenames(b) ensures n in Filenames(a) {
      var v :| v in b && v.filename == n;
      var i :| 0 <= i < |b| && b[i] == v;
      assert a[i] in a;
    }
  }

  lemma {:induction false} ScanFilenames(db: seq<Video>, listing: set<string>, order: seq<string>,
                      added: seq<Video>, folder: string, join: (string, string) -> string)
    requires Enumerates(order, listing)
    requires added == NewRecords(SelectNew(order, Filenames(db)), MaxId(db) + 1, folder, join)
    ensures Filenames(db + added) == Filenames(db) + (set n | n in listing && EndsWith(n, MediaSuffix))
  {
    var names := SelectNew(order, Filenames(db));
    FilenamesAppend(db, added);
    FilenamesNewRecords(names, MaxId(db) + 1, folder, join);
    SelectedNames(order, listing, Filenames(db));
  }

  lemma {:induction false} FilenamesAppend(a: seq<Video>, b: seq<Video>)
    ensures Filenames(a + b) == Filenames(a) + Filenames(b)
  {
    forall n | n in Filenames(a + b) ensures n in Filenames(a) + Filenames(b) {
      var v :| v in a + b && v.filename == n;
    }
    forall n | n in Filenames(a) + Filenames(b) ensures n in Filenames(a + b) {
      var v :| (v in a || v in b) && v.filename == n;
      assert v in a + b;
    }
  }

  lemma {:induction false} FilenamesNewRecords(names: seq<string>, firstId: nat, folder: string,
                            join: (string, string) -> string)
    ensures Filenames(NewRecords(names, firstId, folder, join)) == set n | n in names
  {
    var added := NewRecords(names, firstId, folder, join);
    forall n | n in names ensures n in Filenames(added) {
      var k :| 0 <= k < |names| && names[k] == n;
      assert added[k] in added;
    }
  }

  lemma {:induction false} SelectedNames(order: seq<string>, listing: set<string>, known: set<string>)
    requires Enumerates(order, listing)
    ensures known + (set n | n in SelectNew(order, known))
         == known + (set n | n in listing && EndsWith(n, MediaSuffix))
  {
  }

  /** The scan numbers its new records consecutively after the largest id,
      in iteration order (SQLite's rowid assignment). */
  lemma {:induction false} ScanNewIds(db: seq<Video>, listing: set<string>, order: seq<string>,
                                      folder: string, join: (string, string) -> string)
    requires Enumerates(order, listing)
    ensures var r := Scan(db, listing, order, folder, join);
      forall i :: |db| <= i < |r| ==> r[i].id == MaxId(db) + 1 + (i - |db|)
  {
    var added := NewRecords(SelectNew(order, Filenames(db)), MaxId(db) + 1, folder, join);
    forall i | |db| <= i < |db| + |added|
      ensures UpdateNextIds(db + added)[i].id == MaxId(db) + 1 + (i - |db|)
    {
      AddedRecord(db, added, order, Filenames(db), MaxId(db) + 1, listing, folder, join, i);
    }
  }

  /** The names the scan adds are pairwise distinct when the listing is. */
  lemma {:induction false} ScanNewNamesDistinct(db: seq<Video>, listing: set<string>, order: seq<string>,
                                                folder: string, join: (string, string) -> string)
    requires Enumerates(order, listing)
    ensures var r := Scan(db, listing, order, folder, join);
      forall i, j :: |db| <= i < j < |r| ==> r[i].filename != r[j].filename
  {
    var names := SelectNew(order, Filenames(db));
    var added := NewRecords(names, MaxId(db) + 1, folder, join);
    var r := UpdateNextIds(db + added);
    forall i, j | |db| <= i < j < |r|
      ensures r[i].filename != r[j].filename
    {
      assert (db + added)[i] == added[i - |db|];
      assert (db + added)[j] == added[j - |db|];
      NoDupsDistinct(names, i - |db|, j - |db|);
    }
  }

  lemma {:induction false} ScanKeepsSorted(db: seq<Video>, listing: set<string>, order: seq<string>,
                                           folder: string, join: (string, string) -> string)
    requires Enumerates(order, listing)
    requires SortedById(db)
    ensures SortedById(Scan(db, listing, order, folder, join))
  {
    var r := Scan(db, listing, order, folder, join);
    ScanKeepsExisting(db, listing, order, folder, join);
    ScanNewIds(db, listing, order, folder, join);
    forall i, j | 0 <= i < j < |r| ensures r[i].id < r[j].id {
      if j < |db| {
        assert r[i].id == db[i].id && r[j].id == db[j].id;
      } else if i < |db| {
        assert r[i].id == db[i].id <= MaxId(db);
      }
    }
  }

  lemma {:induction false} ScanKeepsUnique(db: seq<Video>, listing: set<string>, order: seq<string>,
                                           folder: string, join: (string, string) -> string)
    requires Enumerates(order, listing)
    requires UniqueFilenames(db)
    ensures UniqueFilenames(Scan(db, listing, order, folder, join))
  {
    var r := Scan(db, listing, order, folder, join);
    ScanKeepsExisting(db, listing, order, folder, join);
    ScanAddsNew(db, listing, order, folder, join);
    ScanNewNamesDistinct(db, listing, order, folder, join);
    forall i, j | 0 <= i < j < |r| ensures r[i].filename != r[j].filename {
      if j < |db| {
        assert r[i].filename == db[i].filename && r[j].filename == db[j].filename;
      } else if i < |db| {
        assert ScannedRecord(r[j], db, listing, folder, join);
        assert db[i] in db;
        assert r[i].filename == db[i].filename;
      }
    }
  }

  lemma {:induction false} ScanKeepsLastUnlinked(db: seq<Video>, listing: set<string>, order: seq<string>,
                                                 folder: string, join: (string, string) -> string)
    requires Enumerates(order, listing)
    requires LastUnlinked(db)
    ensures LastUnlinked(Scan(db, listing, order, folder, join))
  {
    var added := NewRecords(SelectNew(order, Filenames(db)), MaxId(db) + 1, folder, join);
    AppendUnlinked(db, added);
  }

  lemma {:induction false} AppendUnlinked(db: seq<Video>, added: seq<Video>)
    requires LastUnlinked(db)
    requires forall k :: 0 <= k < |added| ==> added[k].nextId == None
    ensures LastUnlinked(UpdateNextIds(db + added))
  {
    if |added| > 0 {
      assert (db + added)[|db| + |added| - 1] == added[|added| - 1];
    } else {
      assert db + added == db;
    }
  }

  /** Every scan leaves the table valid: ids increasing, filenames unique,
      and the last video without successor. */
  lemma {:induction false} ScanPreservesValid(db: seq<Video>, listing: set<string>, order: seq<string>,
                                              folder: string, join: (string, string) -> string)
    requires Enumerates(order, listing)
    requires Valid(db)
    ensures Valid(Scan(db, listing, order, folder, join))
  {
    ScanKeepsSorted(db, listing, order, folder, join);
    ScanKeepsUnique(db, listing, order, folder, join);
    ScanKeepsLastUnlinked(db, listing, order, folder, join);
  }

  /** `init_db` on an empty table yields a valid, fully chained catalogue. */
  lemma {:induction false} InitialScanValid(listing: set<string>, order: seq<string>,
                                            folder: string, join: (string, string) -> string)
    requires Enumerates(order, listing)
    ensures Valid(Scan([], listing, order, folder, join))
    ensures Chained(Scan([], listing, order, folder, join))
    ensures Filenames(Scan([], listing, order, folder, join))
         == set n | n in listing && EndsWith(n, MediaSuffix)
  {
    ScanPreservesValid([], listing, order, folder, join);
    ScanRecordsExactlyMp4s([], listing, order, folder, join);
    assert Filenames([]) == {};
  }

  /** A second scan of the same directory, in any iteration order, adds
      nothing and leaves the chain as it was. */
  lemma {:induction false} ScanIdempotent(db: seq<Video>, listing: set<string>, order: seq<string>,
                                          order2: seq<string>, folder: string,
                                          join: (string, string) -> string)
    requires Enumerates(order, listing)
    requires Enumerates(order2, listing)
    ensures var r := Scan(db, listing, order, folder, join);
      Scan(r, listing, order2, folder, join) == r
  {
    var r := Scan(db, listing, order, folder, join);
    ScanRecordsExactlyMp4s(db, listing, order, folder, join);
    var names := SelectNew(order2, Filenames(r));
    if |names| > 0 {
      Seqs.HeadIsMember(names);
      assert false;
    }
    var added := NewRecords(names, MaxId(r) + 1, folder, join);
    assert r + added == r;
    UpdateNextIdsKeepsChained(r);
  }
}
