/**
 * The song library kept in the browser's localStorage under one key: read
 * with a fallback to the empty list, upsert by id (prepend and drop the
 * older copy), delete by id. JSON serialisation is taken to round-trip:
 * a `Stored(songs)` item is text that parses back to `songs`.
 */
module SongsStorage {
  import opened Wrappers
  import opened Filters
  import opened SongTypes

  /**
   * The one localStorage key the library is read from and written to. The
   * store models the item under this key only, so no operation takes a key.
   */
  const SongsStorageKey: string := "surSangamSongs"

  /** What localStorage holds under SongsStorageKey. */
  datatype StoredItem =
    | Absent                    // no item, or the empty string
    | Unparsable(text: string)  // JSON.parse throws on it
    | Stored(songs: seq<Song>)

  /** How `localStorage.setItem` ends. */
  datatype WriteResult = Written | QuotaExceeded | OtherWriteError

  /** `s => s.id !== id` */
  function IdIsNot(id: string): Song -> bool {
    (s: Song) => s.id != id
  }

  function HasId(id: string): Song -> bool {
    (s: Song) => s.id == id
  }

  /** How many songs in the list carry `id`. */
  function CountId(songs: seq<Song>, id: string): nat {
    Count(HasId(id), songs)
  }

  /** No two songs share an id. */
  ghost predicate UniqueIds(songs: seq<Song>) {
    forall id :: CountId(songs, id) <= 1
  }

  /** `songs.filter(s => s.id !== id)`. */
  function WithoutId(songs: seq<Song>, id: string): (r: seq<Song>)
    ensures forall s :: s in r <==> s in songs && s.id != id
    ensures |r| == |songs| - CountId(songs, id)
    ensures CountId(r, id) == 0
  {
    var r := Filter(IdIsNot(id), songs);
    FilterLength(IdIsNot(id), songs);
    CountComplement(IdIsNot(id), HasId(id), songs);
    r
  }

  /** `[song, ...songs.filter(s => s.id !== song.id)]`. */
  function Upsert(songs: seq<Song>, song: Song): (r: seq<Song>)
    ensures r != [] && r[0] == song
  {
    [song] + WithoutId(songs, song.id)
  }

  lemma CountIdCons(song: Song, songs: seq<Song>, id: string)
    ensures CountId([song] + songs, id) == (if song.id == id then 1 else 0) + CountId(songs, id)
  {
    assert ([song] + songs)[1..] == songs;
  }

  lemma WithoutIdCons(song: Song, songs: seq<Song>)
    ensures WithoutId([song] + songs, song.id) == WithoutId(songs, song.id)
  {
    assert ([song] + songs)[1..] == songs;
  }

  /** After an upsert exactly one stored song carries the new song's id. */
  lemma UpsertSingleCopy(songs: seq<Song>, song: Song)
    ensures CountId(Upsert(songs, song), song.id) == 1
  {
    CountIdCons(song, WithoutId(songs, song.id), song.id);
  }

  /** An upsert keeps every song with another id, in the original relative order. */
  lemma UpsertKeepsOthers(songs: seq<Song>, song: Song)
    ensures WithoutId(Upsert(songs, song), song.id) == WithoutId(songs, song.id)
  {
    WithoutIdCons(song, WithoutId(songs, song.id));
    FilterIdempotent(IdIsNot(song.id), songs);
  }

  /** An upsert removes the older copies and adds one. */
  lemma UpsertLength(songs: seq<Song>, song: Song)
    ensures |Upsert(songs, song)| == |songs| - CountId(songs, song.id) + 1
  {
  }

  /** Saving the same song twice is saving it once. */
  lemma UpsertIdempotent(songs: seq<Song>, song: Song)
    ensures Upsert(Upsert(songs, song), song) == Upsert(songs, song)
  {
    UpsertKeepsOthers(songs, song);
  }

  /** Deleting an id that no song carries changes nothing. */
  lemma WithoutAbsentId(songs: seq<Song>, id: string)
    requires CountId(songs, id) == 0
    ensures WithoutId(songs, id) == songs
  {
    FilterAll(IdIsNot(id), songs);
  }

  /** Removing an id cannot create a duplicate. */
  lemma WithoutIdKeepsUnique(songs: seq<Song>, id: string)
    requires UniqueIds(songs)
    ensures UniqueIds(WithoutId(songs, id))
  {
    var rest := WithoutId(songs, id);
    assert rest == Filter(IdIsNot(id), songs);
    forall other ensures CountId(rest, other) <= 1 {
      CountFiltered(HasId(other), IdIsNot(id), songs);
      assert CountId(songs, other) <= 1;
    }
  }

  /** Upserting keeps ids unique. */
  lemma UpsertKeepsUnique(songs: seq<Song>, song: Song)
    requires UniqueIds(songs)
    ensures UniqueIds(Upsert(songs, song))
  {
    var rest := WithoutId(songs, song.id);
    WithoutIdKeepsUnique(songs, song.id);
    forall id ensures CountId(Upsert(songs, song), id) <= 1 {
      CountIdCons(song, rest, id);
    }
  }

  /**
   * The storage as the browser page sees it. Without a window (server-side
   * rendering) every operation is a no-op and reads give the empty list.
   */
  class SongStore {
    const hasWindow: bool
    var item: StoredItem

    constructor (hasWindow: bool, item: StoredItem)
      ensures this.hasWindow == hasWindow && this.item == item
    {
      this.hasWindow := hasWindow;
      this.item := item;
    }

    /** `getSongsFromLocalStorage`: the stored list, or [] without a window, without an item, or when parsing fails. */
    function Songs(): (r: seq<Song>)
      reads this
      ensures !hasWindow ==> r == []
      ensures item.Absent? || item.Unparsable? ==> r == []
      ensures hasWindow && item.Stored? ==> r == item.songs
    {
      if !hasWindow then []
      else match item
        case Absent => []
        case Unparsable(_) => []
        case Stored(songs) => songs
    }

    /**
     * `saveSongToLocalStorage`: a failed write is caught (and a full store
     * alerts the user); it never reaches the caller.
     */
    method Save(song: Song, write: WriteResult) returns (alerted: bool)
      modifies this
      ensures !hasWindow ==> item == old(item) && !alerted
      ensures hasWindow && write == Written ==> item == Stored(Upsert(old(Songs()), song)) && !alerted
      ensures hasWindow && write != Written ==> item == old(item) && alerted == (write == QuotaExceeded)
      ensures hasWindow && write == Written ==> Songs()[0] == song && CountId(Songs(), song.id) == 1
      ensures UniqueIds(old(Songs())) ==> UniqueIds(Songs())
    {
      alerted := false;
      if !hasWindow {
        return;
      }
      var songs := Songs();
      var updated := Upsert(songs, song);
      UpsertSingleCopy(songs, song);
      if UniqueIds(songs) {
        UpsertKeepsUnique(songs, song);
      }
      if write == Written {
        item := Stored(updated);
      } else {
        alerted := write == QuotaExceeded;
      }
    }

    /** `deleteSongFromLocalStorage`: a failed write is caught and ignored. */
    method Delete(songId: string, write: WriteResult)
      modifies this
      ensures !hasWindow || write != Written ==> item == old(item)
      ensures hasWindow && write == Written ==> item == Stored(WithoutId(old(Songs()), songId))
      ensures hasWindow && write == Written ==> CountId(Songs(), songId) == 0
      ensures UniqueIds(old(Songs())) ==> UniqueIds(Songs())
    {
      if !hasWindow {
        return;
      }
      var songs := Songs();
      var updated := WithoutId(songs, songId);
      if UniqueIds(songs) {
        WithoutIdKeepsUnique(songs, songId);
      }
      if write == Written {
        item := Stored(updated);
      }
    }
  }
}
