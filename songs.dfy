/** Tracks: the rows of the server's `songs` table and the song objects that
    `GET /songs` and `GET /songs-list` hand to the pages (src/backend/server.js). */
module Songs {
  import opened Wrappers

  /** A track as the pages see it: `{songName, songArtist, songSrc, songAvatar}`.
      Schedule playlists hold these objects, keyed by `src`. */
  datatype Song = Song(name: string, artist: string, src: string, avatar: string)

  /** The key the pages compare songs by. */
  function SongSrc(s: Song): string { s.src }

  /** A row of the `songs` table. */
  datatype SongRow = SongRow(id: int, name: string, artist: string, filePath: string)

  /** The URL prefix under which uploaded files are served. */
  const FILES_PREFIX: string := "/uploads/files/"

  /** Every listed song gets this picture. */
  const DEFAULT_AVATAR: string := "/images/default-avatar.png"

  function ToSong(row: SongRow): Song
  {
    Song(row.name, row.artist, FILES_PREFIX + row.filePath, DEFAULT_AVATAR)
  }

  /** The response of `GET /songs` and `GET /songs-list`: one song per row, in
      table order, its source being the row's file under FILES_PREFIX. */
  function SongsList(rows: seq<SongRow>): (list: seq<Song>)
    ensures |list| == |rows|
    ensures forall i :: 0 <= i < |rows| ==>
      list[i].name == rows[i].name && list[i].artist == rows[i].artist &&
      list[i].src == FILES_PREFIX + rows[i].filePath && list[i].avatar == DEFAULT_AVATAR
  {
    if rows == [] then [] else [ToSong(rows[0])] + SongsList(rows[1..])
  }

  /** `!x` on a form field: absent and empty text are both refused. */
  predicate Filled(x: Option<string>) { x.Some? && x.value != "" }

  /** The 400 check of `POST /uploads`: a name, an artist and an uploaded file
      whose original name is not empty. */
  predicate UploadAccepted(songName: Option<string>, songArtist: Option<string>, fileName: Option<string>)
  {
    Filled(songName) && Filled(songArtist) && Filled(fileName)
  }
}
