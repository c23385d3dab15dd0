/**
 * `Playlist`: the ordered list of a playlist's tracks, the directory name it
 * is listed under, the `NNN - artist - album - title.mp3` names listed for
 * its tracks, and the lookup of a track by such a name.
 */
module Playlists {
  import opened Wrappers
  import opened Names
  import opened Numbers
  import opened Paths

  /** The fields of a playlist track that the filesystem reads. */
  datatype EntryTrack = EntryTrack(id: string, artist: string, album: string, title: string)

  /** One entry of `pldata['tracks']`: the track id, and the track itself
      when the server sent it along. */
  datatype Entry = Entry(trackId: string, track: Option<EntryTrack>)

  /** A playlist: its name, its directory name, and one slot per entry,
      empty where the track could not be found. */
  datatype Playlist = Playlist(realname: string, dirname: string, tracks: seq<Option<EntryTrack>>)

  /** What `__init__` keeps for one entry: the track sent along, with its id
      set to the entry's track id, or else the library's track with that id
      (`library.get_track`, `None` when there is none). */
  function Resolve(e: Entry, library: map<string, EntryTrack>): (r: Option<EntryTrack>)
    ensures e.track.Some? ==> r == Some(e.track.value.(id := e.trackId))
    ensures e.track.None? ==> (r.Some? <==> e.trackId in library)
    ensures e.track.None? && e.trackId in library ==> r == Some(library[e.trackId])
    ensures r.Some? ==> r.value.id == e.trackId || e.track.None?
  {
    if e.track.Some? then Some(e.track.value.(id := e.trackId))
    else if e.trackId in library then Some(library[e.trackId])
    else None
  }

  /** `Playlist(library, pldata)`: one slot per entry, in the given order;
      the directory name is the formatted name with surrounding whitespace
      removed. */
  method NewPlaylist(name: string, entries: seq<Entry>, library: map<string, EntryTrack>) returns (p: Playlist)
    ensures p.realname == name && p.dirname == Strip(FormatNames(name))
    ensures |p.tracks| == |entries|
    ensures forall i :: 0 <= i < |entries| ==> p.tracks[i] == Resolve(entries[i], library)
  {
    var tracks: seq<Option<EntryTrack>> := [];
    var i := 0;
    while i < |entries|
      invariant 0 <= i <= |entries|
      invariant |tracks| == i
      invariant forall j :: 0 <= j < i ==> tracks[j] == Resolve(entries[j], library)
    {
      var track: Option<EntryTrack>;
      if entries[i].track.Some? {
        track := Some(entries[i].track.value.(id := entries[i].trackId));
      } else {
        track := if entries[i].trackId in library then Some(library[entries[i].trackId]) else None;
      }
      tracks := tracks + [track];
      i := i + 1;
    }
    p := Playlist(name, Strip(FormatNames(name)), tracks);
  }

  /** The outcome of `Playlist.get_track`. The source returns `None` both
      for a name that does not match and for an empty slot, and raises
      `IndexError` for a position past the end. */
  datatype Lookup = NoMatch | Found(track: Option<EntryTrack>) | OutOfRange

  /** `get_track`: the position the name carries picks the slot, counting
      from 1. Position 0 becomes index -1, which Python reads as the last
      slot. */
  function GetTrack(p: Playlist, filename: string): (r: Lookup)
    ensures r == NoMatch <==> ParsePlaylistFileName(filename).None?
    ensures r.Found? ==> exists i :: 0 <= i < |p.tracks| && r.track == p.tracks[i]
    ensures r == OutOfRange <==> ParsePlaylistFileName(filename).Some? && (p.tracks == [] || ParsePlaylistFileName(filename).value > |p.tracks|)
    ensures ParsePlaylistFileName(filename).Some? && 1 <= ParsePlaylistFileName(filename).value <= |p.tracks|
            ==> r == Found(p.tracks[ParsePlaylistFileName(filename).value - 1])
    ensures ParsePlaylistFileName(filename) == Some(0) && p.tracks != [] ==> r == Found(p.tracks[|p.tracks| - 1])
  {
    match ParsePlaylistFileName(filename)
    case None => NoMatch
    case Some(n) =>
      if n >= 1 && n <= |p.tracks| then Found(p.tracks[n - 1])
      else if n == 0 && p.tracks != [] then Found(p.tracks[|p.tracks| - 1])
      else OutOfRange
  }

  /** The name listed for the track in slot `i` (counting from 0). */
  function ListedName(t: EntryTrack, i: nat, lowercase: bool): string
  {
    PlaylistFileName(i + 1, t.artist, t.album, t.title, lowercase)
  }

  /** `readdir` on a playlist directory: `.`, `..` and one name per slot,
      numbered from 1. The source fails on an empty slot (it reads fields of
      `None`); the model returns `None` then. */
  method ListPlaylist(p: Playlist, lowercase: bool) returns (r: Option<seq<string>>)
    ensures r.Some? <==> forall i :: 0 <= i < |p.tracks| ==> p.tracks[i].Some?
    ensures r.Some? ==> |r.value| == |p.tracks| + 2 && r.value[0] == "." && r.value[1] == ".."
    ensures r.Some? ==> forall i :: 0 <= i < |p.tracks| ==> r.value[i + 2] == ListedName(p.tracks[i].value, i, lowercase)
  {
    var files := [".", ".."];
    var tracknum := 1;
    while tracknum <= |p.tracks|
      invariant 1 <= tracknum <= |p.tracks| + 1
      invariant |files| == tracknum + 1 && files[0] == "." && files[1] == ".."
      invariant forall i :: 0 <= i < tracknum - 1 ==> p.tracks[i].Some? && files[i + 2] == ListedName(p.tracks[i].value, i, lowercase)
    {
      var slot := p.tracks[tracknum - 1];
      if slot.None? {
        return None;
      }
      files := files + [ListedName(slot.value, tracknum - 1, lowercase)];
      tracknum := tracknum + 1;
    }
    return Some(files);
  }

  /** Every name listed for a playlist resolves, through `get_track`, to
      the slot it was listed for. */
  lemma ListedNameResolves(p: Playlist, i: nat, lowercase: bool)
    requires i < |p.tracks| && p.tracks[i].Some?
    ensures GetTrack(p, ListedName(p.tracks[i].value, i, lowercase)) == Found(p.tracks[i])
  {
    var t := p.tracks[i].value;
    PlaylistFileNameRoundTrip(i + 1, t.artist, t.album, t.title, lowercase);
  }
}
