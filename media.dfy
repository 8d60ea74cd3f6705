/**
 * services/media.service.ts: the media table `mockMedia` (licensing channels).
 *
 * The same create / merge-update / splice-delete shape as the other stores.
 * Deleting a media leaves the rights-holder associations that name it in
 * place: no method here may write any table but `media`.
 */
module MediaService {
  import opened Wrappers
  import opened Records
  import opened Tables
  import opened MockData

  /** getMedias: a copy of the whole table, in store order. */
  function GetMedias(db: MockDb): (r: seq<Media>)
    reads db
    ensures r == db.media
  {
    db.media
  }

  /** getMediaById: the first media with that id, or absent. */
  function GetMediaById(db: MockDb, id: Id): (r: Option<Media>)
    reads db
    ensures FirstMatch(db.media, MediaId, id, r)
  {
    Find(db.media, MediaId, id)
  }

  /** createMedia: `{ id: generateId(), created_at: generateTimestamp(), ...mediaData }`, pushed at the end. */
  method CreateMedia(db: MockDb, draft: Media, freshId: Id, now: string) returns (m: Media)
    modifies db`media
    ensures m == draft.(id := freshId, created_at := now)
    ensures db.media == old(db.media) + [m]
    ensures IndexOf(old(db.media), MediaId, freshId) == -1 ==>
      GetMediaById(db, freshId) == Some(m) &&
      (UniqueKeys(old(db.media), MediaId) ==> UniqueKeys(db.media, MediaId))
  {
    var media := db.media;
    m := draft.(id := freshId, created_at := now);
    db.media := db.media + [m];
    if IndexOf(media, MediaId, freshId) == -1 {
      AppendFreshKey(media, MediaId, m);
    }
  }

  /** updateMedia: absent and no change for an unknown id; otherwise the first match becomes `{ ...old, ...mediaData }`. */
  method UpdateMedia(db: MockDb, id: Id, patch: MediaPatch) returns (r: Option<Media>)
    modifies db`media
    ensures var i := IndexOf(old(db.media), MediaId, id);
      if i == -1 then r.None? else r == Some(MergeMedia(old(db.media)[i], patch))
    ensures db.media == UpdateFirst(old(db.media), MediaId, id, MergeMedia, patch)
    ensures patch.id.None? && r.Some? ==> GetMediaById(db, id) == r
    ensures patch.id.None? && UniqueKeys(old(db.media), MediaId) ==> UniqueKeys(db.media, MediaId)
  {
    var media := db.media;
    var index := IndexOf(db.media, MediaId, id);
    if index == -1 {
      return None;
    }
    db.media := db.media[index := MergeMedia(db.media[index], patch)];
    r := Some(db.media[index]);
    if patch.id.None? {
      UpdateThenFind(media, MediaId, id, MergeMedia, patch);
      if UniqueKeys(media, MediaId) {
        UpdateKeepsUnique(media, MediaId, id, MergeMedia, patch);
      }
    }
  }

  /** deleteMedia: false and no change for an unknown id; otherwise the first match is spliced out. */
  method DeleteMedia(db: MockDb, id: Id) returns (deleted: bool)
    modifies db`media
    ensures var i := IndexOf(old(db.media), MediaId, id);
      deleted == (i != -1) &&
      if i == -1 then db.media == old(db.media) else db.media == RemoveAt(old(db.media), i)
    ensures deleted && UniqueKeys(old(db.media), MediaId) ==>
      GetMediaById(db, id).None? && UniqueKeys(db.media, MediaId)
    ensures db.rightsHolders == old(db.rightsHolders) && db.rightsMedia == old(db.rightsMedia)
  {
    var media := db.media;
    var index := IndexOf(db.media, MediaId, id);
    if index == -1 {
      return false;
    }
    db.media := RemoveAt(db.media, index);
    if UniqueKeys(media, MediaId) {
      RemoveFoundKey(media, MediaId, id);
      RemoveAtUnique(media, MediaId, index);
    }
    return true;
  }
}
